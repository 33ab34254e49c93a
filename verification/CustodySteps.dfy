/**
 What each actor's step is for. The laws over runs say what the steps together never do; here is
 that each of them, in a state in order, does its own work exactly when it should.
 */
module CustodySteps {
  import opened Common
  import opened Custody
  import opened CustodyProtocol
  import opened CustodySafety
  import opened CustodyMoney
  import opened Sums

  /** Nothing but one row is different. */
  predicate OnlyRow(s: State, t: State, id: Id, y: Withdrawal) {
    t == s.(withdrawals := s.withdrawals[id := y])
  }

  /** One purse has moved, in both of Core's rows alike, and no other. */
  ghost predicate OnlyMoved(m: Money, n: Money, wallet: Id, available: int, frozen: int, spent: int) {
    var p, q := PurseOf(m, wallet), PurseOf(n, wallet);
    && q.account.available == p.account.available + available && q.account.frozen == p.account.frozen + frozen
    && q.cryptoWallet.available == p.cryptoWallet.available + available
    && q.cryptoWallet.frozen == p.cryptoWallet.frozen + frozen
    && q.credited == p.credited && q.adjusted == p.adjusted && q.spent == p.spent + spent
    && forall w :: w != wallet ==> PurseOf(n, w) == PurseOf(m, w)
  }

  // ---- the API --------------------------------------------------------------------------------

  /**
   A new withdrawal is accepted exactly if its wallet's account covers it beside the pending ones,
   to the micro-unit; it is on file as submitted and waits for its reservation.
   */
  lemma CreateServed(s: State, id: Id, wallet: Id, amount: int, fee: int)
    requires Inv(s)
    ensures var t := Next(s, Create(id, wallet, amount, fee));
      if && id !in s.withdrawals && 0 <= fee < amount
         && 100 * amount <= Slack(s, wallet) + PurseOf(s.money, wallet).adjusted
      then OnlyRow(s, t, id, Withdrawal(wallet, amount, fee, amount - fee, Submitted, None,
                                        PendingReservation, NoOperation))
      else t == s
  {
    assert Balanced(s.withdrawals, s.money, wallet);
  }

  /** Administrators, the reconciler and the worker move a row along its life cycle and touch nothing else. */
  lemma ActServed(s: State, id: Id, row: RowStep)
    requires Inv(s) && id in s.withdrawals
    ensures Next(s, Act(id, row)) ==
      match row
      case DoStart | DoPersist(_) | DoFail | DoMarkException | DoFinal(_, _) | DoConflict => s
      case _ => s.(withdrawals := s.withdrawals[id := LifeCycle(s.withdrawals[id], row, s.events)])
  {
    assert Valid(s.withdrawals[id]);
    StatementsFollowLifeCycle(s.withdrawals[id], row, s.events);
  }

  /** A callback is put on file in any case, and ends or questions the payout it is about. */
  lemma CallbackServed(s: State, id: Id, cid: Id, code: FinalCode, exact: bool)
    requires Inv(s)
    ensures Next(s, Callback(id, cid, code, exact)) ==
      if id !in s.withdrawals then s
      else
        var x := s.withdrawals[id];
        var y := if x.custody !in {Executing, SubmittedToCregis, Exception} then x
                 else if !exact then x.(custody := Exception)
                 else if x.cid == None || x.cid == Some(cid) then Ended(x, cid, code) else x;
        s.(withdrawals := s.withdrawals[id := y], events := s.events + {(cid, code)})
  {
    if id in s.withdrawals {
      var x, row := s.withdrawals[id], if exact then DoFinal(cid, code) else DoConflict;
      assert Valid(x);
      StatementsFollowLifeCycle(x, row, s.events);
    }
  }

  // ---- the payout request ---------------------------------------------------------------------

  /** A payout starts exactly on an approved withdrawal that Core has approved too. */
  lemma StartServed(s: State, request: Id, id: Id)
    requires Inv(s)
    ensures Next(s, Start(request, id)) ==
      if && request !in s.executors && id in s.withdrawals
         && s.withdrawals[id].custody == Approved && s.withdrawals[id].accounting == ApprovedByCore
      then s.(withdrawals := s.withdrawals[id := s.withdrawals[id].(custody := Executing)],
              executors := s.executors[request := Executor(id, CheckingAddress)])
      else s
  {
  }

  /** The address decides whether the provider is called, and the call is made once and kept in the history. */
  lemma RequestServed(s: State, request: Id, legal: bool, answer: Answer)
    requires request in s.executors
    ensures var e := s.executors[request];
      && Next(s, AddressChecked(request, legal)) ==
           (if e.phase != CheckingAddress then s
            else if legal then s.(executors := s.executors[request := Executor(e.withdrawal, CallingProvider)])
            else s.(executors := s.executors[request := Executor(e.withdrawal, Refused)]))
      && Next(s, CallProvider(request, answer)) ==
           (if e.phase != CallingProvider then s
            else s.(executors := s.executors[request := Executor(e.withdrawal, Answered(answer))],
                    payouts := s.payouts + [Payout(e.withdrawal, answer)]))
      && Next(s, Drop(request)) == s.(executors := s.executors - {request})
  {
  }

  /**
   What the request concludes for a withdrawal still executing: an accepted payout is recorded, an
   address the check or the provider refused gives the withdrawal up, anything unclear is left to
   the reconciler. Before it has an answer it concludes nothing, and it does not touch a withdrawal
   that a callback has taken on meanwhile.
   */
  lemma FinishServed(s: State, request: Id)
    requires Inv(s) && request in s.executors
    ensures var e, t := s.executors[request], Next(s, Finish(request));
      && e.withdrawal in s.withdrawals
      && var x := s.withdrawals[e.withdrawal];
         if e.phase == CheckingAddress || e.phase == CallingProvider then t == s
         else
           var y := if x.custody != Executing then x
                    else match e.phase
                         case Answered(Accepted(cid)) => x.(custody := SubmittedToCregis, cid := Some(cid))
                         case Answered(InvalidAddress) => x.(custody := Failed, accounting := PendingRelease)
                         case Answered(Unclear) => x.(custody := Exception)
                         case _ => x.(custody := Failed, accounting := PendingRelease);
           t == s.(withdrawals := s.withdrawals[e.withdrawal := y], executors := s.executors - {request})
  {
    var e := s.executors[request];
    assert Valid(s.withdrawals[e.withdrawal]);
  }

  // ---- Core -----------------------------------------------------------------------------------

  /** A reservation freezes the amount in both rows and links a submitted operation, if both have it. */
  lemma ReserveServed(s: State, id: Id)
    requires Inv(s) && id in s.withdrawals
    ensures var x, t := s.withdrawals[id], Next(s, CoreReserve(id));
      if x.accounting == Reserving && 100 * x.amount <= PurseOf(s.money, x.wallet).cryptoWallet.available
      then && OnlyMoved(s.money, t.money, x.wallet, -100 * x.amount, 100 * x.amount, 0)
           && OnlyRow(s, t.(money := s.money), id, x.(accounting := Reserved, operation := OpSubmitted))
           && t.money.holds == s.money.holds
      else t == s
  {
    var x := s.withdrawals[id];
    assert Valid(x) && Balanced(s.withdrawals, s.money, x.wallet);
  }

  /** A release gives the amount back, on the evidence for it, and closes the operation. */
  lemma ReleaseServed(s: State, id: Id)
    requires Inv(s) && id in s.withdrawals
    ensures var x, t := s.withdrawals[id], Next(s, CoreRelease(id));
      if x.accounting == Releasing && ReleaseEvidence(s, x) && x.operation in {OpSubmitted, OpProcessing}
      then && OnlyMoved(s.money, t.money, x.wallet, 100 * x.amount, -100 * x.amount, 0)
           && OnlyRow(s, t.(money := s.money), id,
                      x.(accounting := Released,
                         operation := if x.operation == OpSubmitted then OpRejected else OpFailed))
           && t.money.holds == s.money.holds
      else t == s
  {
    var x := s.withdrawals[id];
    FrozenCovers(s, x.wallet);
    FrozenGuardsFollow(s, x);
  }

  /** A settlement takes the amount out of the frozen balances and journals the net amount and the fee. */
  lemma SettleServed(s: State, id: Id)
    requires Inv(s) && id in s.withdrawals
    ensures var x, t := s.withdrawals[id], Next(s, CoreSettle(id));
      if x.accounting == Settling && SettleEvidence(s, x) && x.operation == OpProcessing
      then && OnlyMoved(s.money, t.money, x.wallet, 0, -100 * x.amount, 0)
           && OnlyRow(s, t.(money := s.money, journal := s.journal), id,
                      x.(accounting := Settled, operation := OpCompleted))
           && t.journal == s.journal + [Entry(id, x.net, x.fee)] && t.money.holds == s.money.holds
      else t == s
  {
    var x := s.withdrawals[id];
    FrozenCovers(s, x.wallet);
    FrozenGuardsFollow(s, x);
  }

  /** By hand: a submitted transfer can be rejected, a processing one executed, and no other. */
  lemma ByHandServed(s: State, id: Id)
    requires Inv(s) && id in s.withdrawals
    ensures var x, t := s.withdrawals[id], Next(s, RejectLinked(id));
      if x.operation == OpSubmitted
      then && OnlyMoved(s.money, t.money, x.wallet, 100 * x.amount, -100 * x.amount, 0)
           && OnlyRow(s, t.(money := s.money), id, x.(operation := OpRejected)) && t.money.holds == s.money.holds
      else t == s
    ensures var x, t := s.withdrawals[id], Next(s, ExecuteLinked(id));
      if x.operation == OpProcessing
      then && OnlyMoved(s.money, t.money, x.wallet, 0, -100 * x.amount, 0)
           && OnlyRow(s, t.(money := s.money, journal := s.journal), id, x.(operation := OpCompleted))
           && t.journal == s.journal + [Entry(id, x.net, x.fee)] && t.money.holds == s.money.holds
      else t == s
  {
    FrozenCovers(s, s.withdrawals[id].wallet);
  }

  /** What it takes for the evidence: the provider's reports for the payout number that was recorded. */
  lemma EvidenceMeans(s: State, x: Withdrawal)
    ensures SettleEvidence(s, x) <==>
      x.cid != None && forall code :: (x.cid.value, code) in s.events <==> code == Code6
    ensures ReleaseEvidence(s, x) <==>
      x.cid == None
      || (&& (x.cid.value, Code6) !in s.events
          && var rejected := (x.cid.value, Code2) in s.events || (x.cid.value, Code4) in s.events;
             rejected != ((x.cid.value, Code7) in s.events))
  {
    if SettleEvidence(s, x) {
      forall code ensures (x.cid.value, code) in s.events <==> code == Code6 {
        match code
        case Code2 =>
        case Code4 =>
        case Code6 =>
        case Code7 =>
      }
    }
  }

  // ---- Core's business of its own -----------------------------------------------------------

  /** Credits, conversions and adjustments, each on the rows it is about. */
  lemma MoneyServed(s: State, wallet: Id, atoms: nat)
    requires Inv(s)
    ensures var p, q := PurseOf(s.money, wallet), PurseOf(Next(s, Credit(wallet, atoms)).money, wallet);
      && q.account.available == p.account.available + atoms
      && q.cryptoWallet.available == p.cryptoWallet.available + atoms && q.credited == p.credited + atoms
    ensures var p, q := PurseOf(s.money, wallet), PurseOf(Next(s, AdjustAccount(wallet, atoms)).money, wallet);
      && q.account.available == p.account.available + atoms && q.adjusted == p.adjusted + atoms
      && q.cryptoWallet == p.cryptoWallet
    ensures var t := Next(s, Convert(wallet, atoms));
      if atoms <= PurseOf(s.money, wallet).cryptoWallet.available
      then OnlyMoved(s.money, t.money, wallet, 0 - atoms, 0, atoms) && t.money.holds == s.money.holds
      else t == s
  {
    assert Balanced(s.withdrawals, s.money, wallet);
  }

  /** A payout of Core's own is frozen exactly if both rows have it. */
  lemma FreezeServed(s: State, hold: Id, wallet: Id, atoms: nat)
    requires Inv(s)
    ensures var t := Next(s, Freeze(hold, wallet, atoms));
      if hold !in s.money.holds && atoms <= PurseOf(s.money, wallet).cryptoWallet.available
      then && OnlyMoved(s.money, t.money, wallet, 0 - atoms, atoms, 0)
           && t.money.holds == s.money.holds[hold := Hold(wallet, atoms, false)]
      else t == s
  {
    assert Balanced(s.withdrawals, s.money, wallet);
  }

  /** A hold once approved stays on file, with its amount, until it is executed. */
  lemma ApprovalServed(s: State, hold: Id)
    requires hold in s.money.holds
    ensures Next(s, ApproveHold(hold)).money.holds
         == s.money.holds[hold := Hold(s.money.holds[hold].wallet, s.money.holds[hold].atoms, true)]
    ensures Next(s, ApproveHold(hold)) == s.(money := Next(s, ApproveHold(hold)).money)
    ensures Next(s, ApproveHold(hold)).money.purses == s.money.purses
  {
  }

  /** Only an unapproved hold can be rejected, and it always can: the amount is available again. */
  lemma RejectHoldServed(s: State, hold: Id)
    requires Inv(s) && hold in s.money.holds
    ensures var h, t := s.money.holds[hold], Next(s, RejectHold(hold));
      if h.approved then t == s
      else t.money.holds == s.money.holds - {hold} && OnlyMoved(s.money, t.money, h.wallet, h.atoms, -h.atoms, 0)
  {
    FrozenCovers(s, s.money.holds[hold].wallet);
  }

  /** Only an approved hold can be executed, and it always can: the amount has gone out. */
  lemma ExecuteHoldServed(s: State, hold: Id)
    requires Inv(s) && hold in s.money.holds
    ensures var h, t := s.money.holds[hold], Next(s, ExecuteHold(hold));
      if !h.approved then t == s
      else t.money.holds == s.money.holds - {hold} && OnlyMoved(s.money, t.money, h.wallet, 0, -h.atoms, h.atoms)
  {
    FrozenCovers(s, s.money.holds[hold].wallet);
  }
}
