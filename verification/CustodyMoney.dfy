/**
 The money of the withdrawal protocol. Core freezes and converts the same balances for business
 of its own without looking at pending withdrawals: what holds all the same, and exactly when a
 reservation finds the balance short.
 */
module CustodyMoney {
  import opened Common
  import opened Custody
  import opened CustodyProtocol
  import opened CustodySafety
  import opened Sums

  /** No withdrawal and no hold counts negatively in a wallet's sums, so each is bounded by its sum. */
  lemma SharesAreBounded(s: State, wallet: Id)
    requires Inv(s)
    ensures Total(s.withdrawals, UnreservedOf(wallet)) >= 0 && Total(s.withdrawals, HeldOf(wallet)) >= 0
    ensures Total(s.money.holds, HoldOf(wallet)) >= 0
    ensures forall id :: id in s.withdrawals && s.withdrawals[id].wallet == wallet ==>
      && Unreserved(s.withdrawals[id]) <= Total(s.withdrawals, UnreservedOf(wallet))
      && Held(s.withdrawals[id]) <= Total(s.withdrawals, HeldOf(wallet))
    ensures forall h :: h in s.money.holds && s.money.holds[h].wallet == wallet ==>
      s.money.holds[h].atoms <= Total(s.money.holds, HoldOf(wallet))
  {
    WithdrawalsAreBounded(s.withdrawals, wallet);
    HoldsAreBounded(s.money.holds, wallet);
  }

  lemma WithdrawalsAreBounded(rows: Rows, wallet: Id)
    requires RowsValid(rows)
    ensures Total(rows, UnreservedOf(wallet)) >= 0 && Total(rows, HeldOf(wallet)) >= 0
    ensures forall id :: id in rows && rows[id].wallet == wallet ==>
              && Unreserved(rows[id]) <= Total(rows, UnreservedOf(wallet))
              && Held(rows[id]) <= Total(rows, HeldOf(wallet))
  {
    forall id | id in rows
      ensures UnreservedOf(wallet)(rows[id]) >= 0
      ensures HeldOf(wallet)(rows[id]) >= 0
    {
      assert Valid(rows[id]);
    }
    TotalBoundsRow(rows, UnreservedOf(wallet));
    TotalBoundsRow(rows, HeldOf(wallet));
    forall id | id in rows && rows[id].wallet == wallet
      ensures Unreserved(rows[id]) <= Total(rows, UnreservedOf(wallet))
      ensures Held(rows[id]) <= Total(rows, HeldOf(wallet))
    {
      assert UnreservedOf(wallet)(rows[id]) == Unreserved(rows[id]);
      assert HeldOf(wallet)(rows[id]) == Held(rows[id]);
    }
  }

  lemma HoldsAreBounded(holds: map<Id, Hold>, wallet: Id)
    requires forall h :: h in holds ==> holds[h].atoms >= 0
    ensures Total(holds, HoldOf(wallet)) >= 0
    ensures forall h :: h in holds && holds[h].wallet == wallet ==> holds[h].atoms <= Total(holds, HoldOf(wallet))
  {
    forall h | h in holds ensures HoldOf(wallet)(holds[h]) >= 0 {
    }
    TotalBoundsRow(holds, HoldOf(wallet));
    forall h | h in holds && holds[h].wallet == wallet
      ensures holds[h].atoms <= Total(holds, HoldOf(wallet))
    {
      assert HoldOf(wallet)(holds[h]) == holds[h].atoms;
    }
  }

  // ---- what holds whatever Core does --------------------------------------------------------

  /**
   No part of a balance is ever negative, and the two mirrored rows agree but for what an
   administrator credited to the account alone.
   */
  lemma BalancesMirror(s: State, wallet: Id)
    requires Reachable(s)
    ensures var p := PurseOf(s.money, wallet);
      && p.cryptoWallet.available >= 0 && p.cryptoWallet.frozen >= 0
      && p.account.frozen == p.cryptoWallet.frozen
      && p.account.available == p.cryptoWallet.available + p.adjusted >= p.cryptoWallet.available
  {
    ReachableInv(s);
    assert Balanced(s.withdrawals, s.money, wallet);
    SharesAreBounded(s, wallet);
  }

  /**
   Atoms credited are the atoms available, frozen for a withdrawal or for Core's own payouts,
   paid out, or spent by Core: none is lost or made.
   */
  lemma CreditedIsConserved(s: State, wallet: Id)
    requires Reachable(s)
    ensures var p := PurseOf(s.money, wallet);
      p.credited == p.cryptoWallet.available
                    + ToAtoms(Total(s.withdrawals, HeldOf(wallet))) + Total(s.money.holds, HoldOf(wallet))
                    + ToAtoms(Total(s.withdrawals, PaidOutOf(wallet))) + p.spent
  {
    ReachableInv(s);
    assert Balanced(s.withdrawals, s.money, wallet);
  }

  /** What is frozen in both rows covers every held withdrawal and every hold. */
  lemma FrozenCovers(s: State, wallet: Id)
    requires Inv(s)
    ensures forall id :: id in s.withdrawals && s.withdrawals[id].wallet == wallet ==>
      BothFrozen(PurseOf(s.money, wallet), ToAtoms(Held(s.withdrawals[id])))
    ensures forall h :: h in s.money.holds && s.money.holds[h].wallet == wallet ==>
      BothFrozen(PurseOf(s.money, wallet), s.money.holds[h].atoms)
  {
    assert Balanced(s.withdrawals, s.money, wallet);
    SharesAreBounded(s, wallet);
  }

  lemma FrozenGuardsFollow(s: State, x: Withdrawal)
    requires Valid(x) && BothFrozen(PurseOf(s.money, x.wallet), ToAtoms(Held(x)))
    ensures SettleGuard(s, x) <==> x.accounting == Settling && SettleEvidence(s, x) && x.operation == OpProcessing
    ensures ReleaseGuard(s, x) <==>
      x.accounting == Releasing && ReleaseEvidence(s, x) && x.operation in {OpSubmitted, OpProcessing}
  {
  }

  /**
   Release and settlement never find the frozen balance short: they go through exactly on the
   statuses and the provider's word. The same holds of the administrator acting by hand.
   */
  lemma FrozenNeverRunsShort(s: State, id: Id)
    requires Reachable(s) && id in s.withdrawals
    ensures var x := s.withdrawals[id];
      && (SettleGuard(s, x) <==> x.accounting == Settling && SettleEvidence(s, x) && x.operation == OpProcessing)
      && (ReleaseGuard(s, x) <==>
            x.accounting == Releasing && ReleaseEvidence(s, x) && x.operation in {OpSubmitted, OpProcessing})
      && (RejectLinkedStep(s, id) != s <==> x.operation == OpSubmitted)
      && (ExecuteLinkedStep(s, id) != s <==> x.operation == OpProcessing)
  {
    ReachableInv(s);
    var x := s.withdrawals[id];
    FrozenCovers(s, x.wallet);
    FrozenGuardsFollow(s, x);
    ByHandFollows(s, id);
  }

  lemma ByHandFollows(s: State, id: Id)
    requires id in s.withdrawals
    requires BothFrozen(PurseOf(s.money, s.withdrawals[id].wallet), ToAtoms(Held(s.withdrawals[id])))
    ensures RejectLinkedStep(s, id) != s <==> s.withdrawals[id].operation == OpSubmitted
    ensures ExecuteLinkedStep(s, id) != s <==> s.withdrawals[id].operation == OpProcessing
  {
    var x := s.withdrawals[id];
    if x.operation == OpSubmitted { assert RejectLinkedStep(s, id).withdrawals[id] != x; }
    if x.operation == OpProcessing { assert ExecuteLinkedStep(s, id).withdrawals[id] != x; }
  }

  // ---- when a reservation runs short ----------------------------------------------------------

  /** What a wallet has available beyond the withdrawals still waiting for a reservation. */
  ghost function Slack(s: State, wallet: Id): int {
    PurseOf(s.money, wallet).cryptoWallet.available - ToAtoms(Total(s.withdrawals, UnreservedOf(wallet)))
  }

  ghost predicate Covered(s: State, wallet: Id) { Slack(s, wallet) >= 0 }

  /** A withdrawal Core has claimed for its reservation and cannot reserve. */
  predicate Short(s: State, id: Id) {
    id in s.withdrawals && s.withdrawals[id].accounting == Reserving && !ReserveGuard(s, s.withdrawals[id])
  }

  /** While a wallet is covered, each of its claimed withdrawals can be reserved. */
  lemma CoveredIsNotShort(s: State, id: Id)
    requires Inv(s) && id in s.withdrawals && Covered(s, s.withdrawals[id].wallet)
    ensures !Short(s, id)
  {
    var x := s.withdrawals[id];
    assert Balanced(s.withdrawals, s.money, x.wallet) && Valid(x);
    SharesAreBounded(s, x.wallet);
  }

  /** What a step takes out of a wallet's slack on purpose: a debit of Core's own, or a new withdrawal. */
  ghost function Debit(s: State, step: Step, wallet: Id): int {
    match step
    case Freeze(_, w, atoms) => if w == wallet && Next(s, step) != s then atoms else 0
    case Convert(w, atoms) => if w == wallet && Next(s, step) != s then atoms else 0
    case Create(_, w, amount, _) => if w == wallet && Next(s, step) != s then ToAtoms(amount) else 0
    case _ => 0
  }

  /** A row written while its wallet's available balance moves changes that wallet's slack only. */
  lemma SlackAfterWrite(s: State, t: State, id: Id, y: Withdrawal, available: int, wallet: Id)
    requires t.withdrawals == s.withdrawals[id := y]
    requires id in s.withdrawals ==> s.withdrawals[id].wallet == y.wallet
    requires PurseOf(t.money, wallet).cryptoWallet.available
          == PurseOf(s.money, wallet).cryptoWallet.available + (if wallet == y.wallet then available else 0)
    ensures var before := if id in s.withdrawals then Unreserved(s.withdrawals[id]) else 0;
      Slack(t, wallet)
      == Slack(s, wallet) + (if wallet == y.wallet then available + ToAtoms(before - Unreserved(y)) else 0)
  {
    TotalWrite(s.withdrawals, id, y, UnreservedOf(wallet));
  }

  lemma RowSlack(s: State, id: Id, row: RowStep, t: State, wallet: Id)
    requires Inv(s) && id in s.withdrawals && t.money == s.money
    requires t.withdrawals == s.withdrawals[id := RowNext(s.withdrawals[id], row, s.events)]
    ensures Slack(t, wallet) >= Slack(s, wallet)
  {
    assert Valid(s.withdrawals[id]);
    RowStepKeeps(s.withdrawals[id], row, s.events);
    SlackAfterWrite(s, t, id, RowNext(s.withdrawals[id], row, s.events), 0, wallet);
  }

  lemma CreateSlack(s: State, id: Id, wallet: Id, amount: int, fee: int, w: Id)
    requires id !in s.withdrawals
    ensures Slack(WithRow(s, id, NewWithdrawal(wallet, amount, fee)), w)
         == Slack(s, w) - (if w == wallet then ToAtoms(amount) else 0)
  {
    var y := NewWithdrawal(wallet, amount, fee);
    SlackAfterWrite(s, WithRow(s, id, y), id, y, 0, w);
  }

  lemma BookedSlack(s: State, id: Id, y: Withdrawal, available: int, frozen: int, w: Id)
    requires id in s.withdrawals && y.wallet == s.withdrawals[id].wallet
    requires available + ToAtoms(Unreserved(s.withdrawals[id]) - Unreserved(y)) >= 0
    ensures Slack(Booked(s, id, y, available, frozen), w) >= Slack(s, w)
  {
    SlackAfterWrite(s, Booked(s, id, y, available, frozen), id, y, available, w);
  }

  lemma WorkerSlack(s: State, id: Id, w: Id)
    requires id in s.withdrawals && Valid(s.withdrawals[id])
    ensures Slack(ReserveStep(s, id), w) >= Slack(s, w)
    ensures Slack(ReleaseStep(s, id), w) >= Slack(s, w)
    ensures Slack(SettleStep(s, id), w) >= Slack(s, w)
  {
    var x := s.withdrawals[id];
    if ReserveGuard(s, x) {
      BookedSlack(s, id, Reserve(x), -Atoms(x), Atoms(x), w);
    } else if ReleaseGuard(s, x) {
      BookedSlack(s, id, ReleaseFunds(x), Atoms(x), -Atoms(x), w);
    } else if SettleGuard(s, x) {
      BookedSlack(s, id, Settle(x), 0, -Atoms(x), w);
    }
  }

  lemma ByHandSlack(s: State, id: Id, w: Id)
    requires id in s.withdrawals && Valid(s.withdrawals[id])
    ensures Slack(RejectLinkedStep(s, id), w) >= Slack(s, w)
    ensures Slack(ExecuteLinkedStep(s, id), w) >= Slack(s, w)
  {
    var x := s.withdrawals[id];
    if x.operation == OpSubmitted {
      BookedSlack(s, id, RejectTransfer(x), Atoms(x), -Atoms(x), w);
    } else if x.operation == OpProcessing {
      BookedSlack(s, id, ExecuteTransfer(x), 0, -Atoms(x), w);
    }
  }

  lemma OperationSlack(s: State, step: Step, w: Id)
    requires Inv(s) && OnOperation(step)
    ensures Slack(Next(s, step), w) >= Slack(s, w)
  {
    var id := step.id;
    if id in s.withdrawals {
      assert Valid(s.withdrawals[id]);
      if ByWorker(step) {
        assert Next(s, step) in {ReserveStep(s, id), ReleaseStep(s, id), SettleStep(s, id)};
        WorkerSlack(s, id, w);
      } else {
        assert Next(s, step) in {RejectLinkedStep(s, id), ExecuteLinkedStep(s, id)};
        ByHandSlack(s, id, w);
      }
    } else {
      assert Next(s, step) == s;
    }
  }

  lemma MoneySlack(s: State, step: Step, w: Id)
    requires Inv(s) && Next(s, step) == s.(money := MoneyNext(s.money, step))
    ensures PurseOf(MoneyNext(s.money, step), w).cryptoWallet.available
         >= PurseOf(s.money, w).cryptoWallet.available - (if step.Create? then 0 else Debit(s, step, w))
    ensures step.Freeze? || step.Convert? ==>
      PurseOf(MoneyNext(s.money, step), w).cryptoWallet.available
      == PurseOf(s.money, w).cryptoWallet.available - Debit(s, step, w)
  {
  }

  predicate OnWithdrawal(step: Step) {
    step.Create? || step.Act? || step.Callback? || step.Start? || step.Finish?
  }

  lemma WithdrawalSlack(s: State, step: Step, w: Id)
    requires Inv(s) && OnWithdrawal(step)
    ensures Slack(Next(s, step), w) >= Slack(s, w) - Debit(s, step, w)
    ensures Debit(s, step, w) > 0 ==> Slack(Next(s, step), w) == Slack(s, w) - Debit(s, step, w)
  {
    if Next(s, step) != s {
      match step
      case Create(id, wallet, amount, fee) => CreateSlack(s, id, wallet, amount, fee, w);
      case Act(id, row) => RowSlack(s, id, row, Next(s, step), w);
      case Callback(id, cid, code, exact) =>
        RowSlack(s, id, if exact then DoFinal(cid, code) else DoConflict, Next(s, step), w);
      case Start(request, id) => RowSlack(s, id, DoStart, Next(s, step), w);
      case Finish(request) =>
        var e := s.executors[request];
        RowSlack(s, e.withdrawal, Conclusion(e.phase).value, Next(s, step), w);
    }
  }

  /** A step costs a wallet at most its debit, and a debit is taken in full. */
  lemma StepCostsItsDebit(s: State, step: Step, w: Id)
    requires Inv(s)
    ensures Slack(Next(s, step), w) >= Slack(s, w) - Debit(s, step, w)
    ensures Debit(s, step, w) > 0 ==> Slack(Next(s, step), w) == Slack(s, w) - Debit(s, step, w)
  {
    if OnWithdrawal(step) {
      WithdrawalSlack(s, step, w);
    } else if OnOperation(step) {
      OperationSlack(s, step, w);
    } else if !step.AddressChecked? && !step.CallProvider? && !step.Drop? {
      MoneySlack(s, step, w);
    }
  }

  ghost predicate AllCovered(s: State) { forall w :: Covered(s, w) }

  /** No wallet is debited beyond its slack: a caller can check this before the debit. */
  ghost predicate Affords(s: State, step: Step) { forall w :: Debit(s, step, w) <= Slack(s, w) }

  lemma StepStaysCoveredIff(s: State, step: Step)
    requires Inv(s) && AllCovered(s)
    ensures AllCovered(Next(s, step)) <==> Affords(s, step)
  {
    forall w
      ensures Covered(Next(s, step), w) <==> Debit(s, step, w) <= Slack(s, w)
    {
      assert Covered(s, w);
      StepCostsItsDebit(s, step, w);
    }
  }

  ghost predicate CoveredThroughout(s: State, steps: seq<Step>) {
    forall k :: 0 <= k <= |steps| ==> AllCovered(Run(s, steps[..k]))
  }

  ghost predicate AffordsThroughout(s: State, steps: seq<Step>) {
    forall k :: 0 <= k < |steps| ==> Affords(Run(s, steps[..k]), steps[k])
  }

  lemma PrefixRuns(s: State, steps: seq<Step>, k: nat)
    requires k < |steps|
    ensures Run(s, steps[..k + 1]) == Next(Run(s, steps[..k]), steps[k])
  {
    assert steps[..k + 1][..k] == steps[..k];
  }

  lemma {:induction false} AffordingKeepsCovered(s: State, steps: seq<Step>, k: nat)
    requires Inv(s) && AllCovered(s) && k <= |steps| && AffordsThroughout(s, steps)
    ensures AllCovered(Run(s, steps[..k]))
  {
    if k > 0 {
      AffordingKeepsCovered(s, steps, k - 1);
      RunKeepsInv(s, steps[..k - 1]);
      PrefixRuns(s, steps, k - 1);
      StepStaysCoveredIff(Run(s, steps[..k - 1]), steps[k - 1]);
    }
  }

  /** Along any run all wallets stay covered exactly if no debit ever exceeds its wallet's slack. */
  lemma StaysCoveredIff(s: State, steps: seq<Step>)
    requires Inv(s) && AllCovered(s)
    ensures CoveredThroughout(s, steps) <==> AffordsThroughout(s, steps)
  {
    if CoveredThroughout(s, steps) {
      forall k | 0 <= k < |steps|
        ensures Affords(Run(s, steps[..k]), steps[k])
      {
        RunKeepsInv(s, steps[..k]);
        PrefixRuns(s, steps, k);
        assert AllCovered(Run(s, steps[..k])) && AllCovered(Run(s, steps[..k + 1]));
        StepStaysCoveredIff(Run(s, steps[..k]), steps[k]);
      }
    } else if AffordsThroughout(s, steps) {
      forall k | 0 <= k <= |steps| ensures AllCovered(Run(s, steps[..k])) {
        AffordingKeepsCovered(s, steps, k);
      }
    }
  }

  /** The balance guard of a new withdrawal overlooks only what was credited to the account alone. */
  lemma CreateOverlooksAdjustments(s: State, id: Id, wallet: Id, amount: int, fee: int)
    requires Inv(s) && Next(s, Create(id, wallet, amount, fee)) != s
    ensures Debit(s, Create(id, wallet, amount, fee), wallet) <= Slack(s, wallet) + PurseOf(s.money, wallet).adjusted
  {
    assert Balanced(s.withdrawals, s.money, wallet);
    assert CanCreate(s, wallet, amount);
  }

  // ---- Core's own work --------------------------------------------------------------------------

  /** Claims and reservations: what Core does about pending withdrawals when left alone. */
  predicate Working(steps: seq<Step>) {
    forall i :: 0 <= i < |steps| ==>
      steps[i].CoreReserve? || (steps[i].Act? && steps[i].row == DoClaim)
  }

  ghost predicate CanRunShort(s: State) {
    exists steps, id :: Working(steps) && Short(Run(s, steps), id)
  }

  lemma {:induction false} WorkingStaysCovered(s: State, steps: seq<Step>)
    requires Inv(s) && AllCovered(s) && Working(steps)
    ensures AllCovered(Run(s, steps))
  {
    if steps != [] {
      var before := Run(s, steps[..|steps| - 1]);
      WorkingStaysCovered(s, steps[..|steps| - 1]);
      RunKeepsInv(s, steps[..|steps| - 1]);
      forall w ensures Debit(before, steps[|steps| - 1], w) <= Slack(before, w) {
        assert Covered(before, w);
      }
      StepStaysCoveredIff(before, steps[|steps| - 1]);
    }
  }

  lemma SomeRowWaits(s: State, wallet: Id) returns (id: Id)
    requires Inv(s) && !Covered(s, wallet)
    ensures id in s.withdrawals && s.withdrawals[id].wallet == wallet && Unreserved(s.withdrawals[id]) > 0
  {
    assert Balanced(s.withdrawals, s.money, wallet);
    if forall id :: id in s.withdrawals ==> UnreservedOf(wallet)(s.withdrawals[id]) == 0 {
      TotalOfZeroes(s.withdrawals, UnreservedOf(wallet));
      assert false;
    } else {
      id :| id in s.withdrawals && UnreservedOf(wallet)(s.withdrawals[id]) != 0;
      assert Valid(s.withdrawals[id]);
    }
  }

  /** Claiming a row that waits for its reservation leaves the wallet's slack alone. */
  lemma ClaimKeepsSlack(s: State, id: Id)
    requires Inv(s) && id in s.withdrawals && Unreserved(s.withdrawals[id]) > 0
    ensures var t := Next(s, Act(id, DoClaim)); var x := s.withdrawals[id];
      && Inv(t) && Slack(t, x.wallet) == Slack(s, x.wallet)
      && Total(t.withdrawals, UnreservedOf(x.wallet)) == Total(s.withdrawals, UnreservedOf(x.wallet))
      && id in t.withdrawals && t.withdrawals[id] == x.(accounting := Reserving)
  {
    StepKeepsInv(s, Act(id, DoClaim));
    var x := s.withdrawals[id];
    assert Valid(x);
    assert Next(s, Act(id, DoClaim)) == WithRow(s, id, x.(accounting := Reserving));
    TotalWrite(s.withdrawals, id, x.(accounting := Reserving), UnreservedOf(x.wallet));
  }

  lemma ReserveKeepsSlack(s: State, id: Id)
    requires Inv(s) && id in s.withdrawals && ReserveGuard(s, s.withdrawals[id])
    ensures var t := Next(s, CoreReserve(id)); var x := s.withdrawals[id];
      && Inv(t) && Slack(t, x.wallet) == Slack(s, x.wallet)
      && Total(t.withdrawals, UnreservedOf(x.wallet)) < Total(s.withdrawals, UnreservedOf(x.wallet))
  {
    var x := s.withdrawals[id];
    assert Valid(x);
    TotalWrite(s.withdrawals, id, Reserve(x), UnreservedOf(x.wallet));
    assert Next(s, CoreReserve(id)) == Booked(s, id, Reserve(x), -Atoms(x), Atoms(x));
    assert Inv(Next(s, CoreReserve(id))) by { StepKeepsInv(s, CoreReserve(id)); }
  }

  /** Left alone with a wallet that is not covered, Core reserves until it runs short. */
  lemma {:induction false} UncoveredRunsShort(s: State, wallet: Id) returns (steps: seq<Step>, id: Id)
    requires Inv(s) && !Covered(s, wallet)
    ensures Working(steps) && Short(Run(s, steps), id)
    decreases Total(s.withdrawals, UnreservedOf(wallet))
  {
    id := SomeRowWaits(s, wallet);
    ClaimKeepsSlack(s, id);
    var claim, claimed := Act(id, DoClaim), Next(s, Act(id, DoClaim));
    RunOne(s, claim);
    if Short(claimed, id) {
      steps := [claim];
    } else {
      ReserveKeepsSlack(claimed, id);
      RunOne(claimed, CoreReserve(id));
      RunAppends(s, [claim], [CoreReserve(id)]);
      SharesAreBounded(Next(claimed, CoreReserve(id)), wallet);
      var rest, last := UncoveredRunsShort(Next(claimed, CoreReserve(id)), wallet);
      RunAppends(s, [claim] + [CoreReserve(id)], rest);
      steps, id := [claim] + [CoreReserve(id)] + rest, last;
    }
  }

  /** Core working off what is pending runs short exactly if some wallet is not covered. */
  lemma RunsShortIffUncovered(s: State)
    requires Inv(s)
    ensures CanRunShort(s) <==> !AllCovered(s)
  {
    if AllCovered(s) {
      forall steps, id | Working(steps) ensures !Short(Run(s, steps), id) {
        WorkingStaysCovered(s, steps);
        RunKeepsInv(s, steps);
        if id in Run(s, steps).withdrawals {
          assert Covered(Run(s, steps), Run(s, steps).withdrawals[id].wallet);
          CoveredIsNotShort(Run(s, steps), id);
        }
      }
    } else {
      var wallet :| !Covered(s, wallet);
      var steps, id := UncoveredRunsShort(s, wallet);
    }
  }

  /**
   The reservation guard of the custody API is enough exactly as long as Core's other business
   respects it: at no point of a run can Core's own work run short, if and only if every debit of
   the run leaves its wallet's pending withdrawals covered.
   */
  lemma NeverRunsShortIff(steps: seq<Step>)
    ensures (forall k :: 0 <= k <= |steps| ==> !CanRunShort(Run(Empty, steps[..k])))
       <==> AffordsThroughout(Empty, steps)
  {
    EmptyKeepsInv();
    forall w ensures Covered(Empty, w) {
      TotalOfZeroes(Empty.withdrawals, UnreservedOf(w));
    }
    StaysCoveredIff(Empty, steps);
    forall k | 0 <= k <= |steps|
      ensures CanRunShort(Run(Empty, steps[..k])) <==> !AllCovered(Run(Empty, steps[..k]))
    {
      RunKeepsInv(Empty, steps[..k]);
      RunsShortIffUncovered(Run(Empty, steps[..k]));
    }
  }

  // ---- runs that do run short -------------------------------------------------------------------

  lemma AcceptedAndClaimed(s: State)
    requires s.withdrawals == map[] && PurseOf(s.money, 1).account.available >= 1000
    ensures var t := Next(Next(s, Create(1, 1, 10, 1)), Act(1, DoClaim));
      && t.money == s.money && 1 in t.withdrawals
      && t.withdrawals[1] == NewWithdrawal(1, 10, 1).(accounting := Reserving)
  {
    assert Total(s.withdrawals, UnreservedOf(1)) == 0;
    assert CanCreate(s, 1, 10);
    assert Next(s, Create(1, 1, 10, 1)) == WithRow(s, 1, NewWithdrawal(1, 10, 1));
  }

  lemma ShortWithoutFunds(s: State)
    requires 1 in s.withdrawals && s.withdrawals[1] == NewWithdrawal(1, 10, 1).(accounting := Reserving)
    requires PurseOf(s.money, 1).cryptoWallet.available < 1000
    ensures Short(s, 1)
  {
  }

  predicate Holds(p: Purse, account: int, cryptoWallet: int) {
    p.account.available == account && p.cryptoWallet.available == cryptoWallet
  }

  lemma FundedPurses(m: Money)
    requires Holds(PurseOf(m, 1), 0, 0)
    ensures Holds(PurseOf(MoneyNext(m, Credit(1, 1000)), 1), 1000, 1000)
    ensures Holds(PurseOf(MoneyNext(m, AdjustAccount(1, 1000)), 1), 1000, 0)
  {
  }

  lemma Funded()
    ensures Holds(PurseOf(Next(Empty, Credit(1, 1000)).money, 1), 1000, 1000)
    ensures Holds(PurseOf(Next(Empty, AdjustAccount(1, 1000)).money, 1), 1000, 0)
  {
    FundedPurses(Empty.money);
  }

  lemma ConvertedAway(s: State)
    requires Holds(PurseOf(s.money, 1), 1000, 1000)
    ensures var t := Next(s, Convert(1, 1000));
      t.withdrawals == s.withdrawals && PurseOf(t.money, 1).cryptoWallet.available == 0
  {
  }

  lemma AcceptedThenConverted(s: State)
    requires s.withdrawals == map[] && Holds(PurseOf(s.money, 1), 1000, 1000)
    ensures Short(Next(Next(Next(s, Create(1, 1, 10, 1)), Act(1, DoClaim)), Convert(1, 1000)), 1)
  {
    AcceptedAndClaimed(s);
    ConvertedAway(Next(Next(s, Create(1, 1, 10, 1)), Act(1, DoClaim)));
    ShortWithoutFunds(Next(Next(Next(s, Create(1, 1, 10, 1)), Act(1, DoClaim)), Convert(1, 1000)));
  }

  lemma AcceptedWithoutFunds(s: State)
    requires s.withdrawals == map[] && Holds(PurseOf(s.money, 1), 1000, 0)
    ensures Short(Next(Next(s, Create(1, 1, 10, 1)), Act(1, DoClaim)), 1)
  {
    AcceptedAndClaimed(s);
    ShortWithoutFunds(Next(Next(s, Create(1, 1, 10, 1)), Act(1, DoClaim)));
  }

  lemma RunFrom(first: Step, a: Step, b: Step)
    ensures Run(Empty, [first, a, b]) == Next(Next(Next(Empty, first), a), b)
  {
    RunOne(Empty, first);
    RunAppends(Empty, [first], [a]);
    RunOne(Next(Empty, first), a);
    RunAppends(Empty, [first] + [a], [b]);
    RunOne(Next(Next(Empty, first), a), b);
    assert [first] + [a] + [b] == [first, a, b];
  }

  /** Balance 10, a withdrawal of 10 accepted and claimed, then a conversion of the same 10. */
  lemma ConversionRunsShort()
    ensures Short(Run(Empty, [Credit(1, 1000), Create(1, 1, 10, 1), Act(1, DoClaim)] + [Convert(1, 1000)]), 1)
  {
    var steps := [Credit(1, 1000), Create(1, 1, 10, 1), Act(1, DoClaim)];
    var claimed := Next(Next(Next(Empty, Credit(1, 1000)), Create(1, 1, 10, 1)), Act(1, DoClaim));
    assert Run(Empty, steps) == claimed by { RunFrom(Credit(1, 1000), Create(1, 1, 10, 1), Act(1, DoClaim)); }
    RunAppends(Empty, steps, [Convert(1, 1000)]);
    RunOne(claimed, Convert(1, 1000));
    assert Run(Empty, steps + [Convert(1, 1000)]) == Next(claimed, Convert(1, 1000));
    Funded();
    AcceptedThenConverted(Next(Empty, Credit(1, 1000)));
  }

  /** An adjustment credited to the account alone lets a withdrawal pass that Core cannot reserve. */
  lemma AdjustmentRunsShort()
    ensures Short(Run(Empty, [AdjustAccount(1, 1000), Create(1, 1, 10, 1), Act(1, DoClaim)]), 1)
  {
    RunFrom(AdjustAccount(1, 1000), Create(1, 1, 10, 1), Act(1, DoClaim));
    Funded();
    AcceptedWithoutFunds(Next(Empty, AdjustAccount(1, 1000)));
  }
}
