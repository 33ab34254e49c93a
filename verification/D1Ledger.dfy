/**
 The ledger kept behind the D1 gateway: the gateway runs only allow-listed statements, so the
 deposit and withdrawal statements among them are a closed transition system. The migration
 to PostgreSQL refuses to start if any wallet's funds are negative.
 */
module D1Ledger {
  import opened Common
  import opened Sums

  datatype Status =
    | Submitted | Approved | Executing | SubmittedToCregis | Completed
    | Rejected | Failed | Exception | Cancelled

  predicate Live(status: Status) { status !in {Rejected, Failed, Cancelled} }

  datatype Wallet = Wallet(tenant: Id, customer: Id)
  datatype Deposit = Deposit(tenant: Id, wallet: Id, amount: int, completed: bool)
  datatype Withdrawal = Withdrawal(
    tenant: Id, customer: Id, wallet: Id, key: Id, reference: Id, amount: int, status: Status)

  datatype State = State(
    wallets: map<Id, Wallet>, deposits: map<Id, Deposit>, withdrawals: map<Id, Withdrawal>)

  /**
   Bind values of the withdrawal insert. The inserted tenant, customer and amount are bound
   separately from the tenant and customer the wallet is matched on and from the amount the
   balance is compared with.
   */
  datatype Insert = Insert(
    id: Id, tenant: Id, customer: Id, key: Id, reference: Id, amount: int,
    wallet: Id, walletTenant: Id, walletCustomer: Id, guarded: int)

  datatype Update =
    | Approve | Reject | Start | Fail | MarkException | Persist
    | ReconcileSubmitted | ReconcileFailed | ReconcileCancelled
    | CallbackClaims | CallbackFinishes(status: Status)

  datatype Statement =
    | AddWallet(id: Id, wallet: Wallet)
    | AddDeposit(id: Id, deposit: Deposit)
    /** `eligible`: the wallet's and customer's own status conditions hold. */
    | AddWithdrawal(insert: Insert, eligible: bool)
    | UpdateWithdrawal(id: Id, update: Update)

  // ---- the sums of the balance guard and of the migration preflight -----------------------

  function DepositedTo(tenant: Id, wallet: Id): Deposit -> int {
    (d: Deposit) => if d.tenant == tenant && d.wallet == wallet && d.completed then d.amount else 0
  }

  function TakenFrom(tenant: Id, wallet: Id): Withdrawal -> int {
    (x: Withdrawal) => if x.tenant == tenant && x.wallet == wallet && Live(x.status) then x.amount else 0
  }

  function TakenBy(tenant: Id, wallet: Id, customer: Id): Withdrawal -> int {
    (x: Withdrawal) =>
      if x.tenant == tenant && x.wallet == wallet && x.customer == customer && Live(x.status) then x.amount else 0
  }

  /** What the preflight adds up for one wallet. */
  ghost function Funds(s: State, id: Id): int
    requires id in s.wallets
  {
    var tenant := s.wallets[id].tenant;
    Total(s.deposits, DepositedTo(tenant, id)) - Total(s.withdrawals, TakenFrom(tenant, id))
  }

  /** What the insert compares with: only the matched customer's withdrawals are subtracted. */
  ghost function Spendable(s: State, id: Id): int
    requires id in s.wallets
  {
    var w := s.wallets[id];
    Total(s.deposits, DepositedTo(w.tenant, id)) - Total(s.withdrawals, TakenBy(w.tenant, id, w.customer))
  }

  // ---- statements -------------------------------------------------------------------------

  predicate Conflicts(rows: map<Id, Withdrawal>, p: Insert) {
    p.id in rows
    || exists id :: id in rows && (rows[id].reference == p.reference
         || (rows[id].tenant == p.tenant && rows[id].customer == p.customer && rows[id].key == p.key))
  }

  ghost predicate Accepted(s: State, p: Insert) {
    && p.amount > 0 && !Conflicts(s.withdrawals, p)
    && p.wallet in s.wallets && s.wallets[p.wallet] == Wallet(p.walletTenant, p.walletCustomer)
    && p.guarded <= Spendable(s, p.wallet)
  }

  function Written(p: Insert): Withdrawal {
    Withdrawal(p.tenant, p.customer, p.wallet, p.key, p.reference, p.amount, Submitted)
  }

  function Updated(status: Status, update: Update): Status {
    match update
    case Approve => if status == Submitted then Status.Approved else status
    case Reject => if status == Submitted then Rejected else status
    case Start => if status == Status.Approved then Executing else status
    case Fail => if status == Executing then Failed else status
    case MarkException => if status == Executing then Exception else status
    case Persist => if status == Executing then SubmittedToCregis else status
    case ReconcileSubmitted => if status == Exception then SubmittedToCregis else status
    case ReconcileFailed => if status == Exception then Failed else status
    case ReconcileCancelled => if status == Exception then Cancelled else status
    case CallbackClaims => if status in {Executing, Exception} then SubmittedToCregis else status
    case CallbackFinishes(target) => if status == SubmittedToCregis then target else status
  }

  /** Which statement leads from which status to which. */
  predicate Edge(update: Update, before: Status, after: Status) {
    match before
    case Submitted => (update, after) in {(Approve, Status.Approved), (Reject, Rejected)}
    case Approved => (update, after) == (Start, Executing)
    case Executing =>
      (update, after) in {(Persist, SubmittedToCregis), (CallbackClaims, SubmittedToCregis),
                          (Fail, Failed), (MarkException, Exception)}
    case Exception =>
      (update, after) in {(ReconcileSubmitted, SubmittedToCregis), (CallbackClaims, SubmittedToCregis),
                          (ReconcileFailed, Failed), (ReconcileCancelled, Cancelled)}
    case SubmittedToCregis => update == CallbackFinishes(after)
    case Completed | Rejected | Failed | Cancelled => false
  }

  lemma UpdatesFollowEdges(update: Update, before: Status)
    ensures forall after :: Edge(update, before, after) ==> Updated(before, update) == after
    ensures Updated(before, update) != before ==> Edge(update, before, Updated(before, update))
  {
  }

  ghost function Next(s: State, statement: Statement): State {
    match statement
    case AddWallet(id, wallet) =>
      if id in s.wallets then s else s.(wallets := s.wallets[id := wallet])
    case AddDeposit(id, deposit) =>
      if id in s.deposits || deposit.amount <= 0 then s else s.(deposits := s.deposits[id := deposit])
    case AddWithdrawal(p, eligible) =>
      if eligible && Accepted(s, p) then s.(withdrawals := s.withdrawals[p.id := Written(p)]) else s
    case UpdateWithdrawal(id, update) =>
      if id in s.withdrawals
      then var x := s.withdrawals[id];
           s.(withdrawals := s.withdrawals[id := x.(status := Updated(x.status, update))])
      else s
  }

  class Database {
    var wallets: map<Id, Wallet>
    var deposits: map<Id, Deposit>
    var withdrawals: map<Id, Withdrawal>

    function Rows(): State reads this { State(wallets, deposits, withdrawals) }

    constructor ()
      ensures Rows() == Empty
    {
      wallets, deposits, withdrawals := map[], map[], map[];
    }

    method InsertWithdrawal(p: Insert, eligible: bool) returns (changes: nat)
      modifies this`withdrawals
      ensures Rows() == Next(old(Rows()), AddWithdrawal(p, eligible))
      ensures changes == if eligible && Accepted(old(Rows()), p) then 1 else 0
    {
      if !eligible || p.amount <= 0 || Conflicts(withdrawals, p) { return 0; }
      if p.wallet !in wallets || wallets[p.wallet] != Wallet(p.walletTenant, p.walletCustomer) { return 0; }
      var deposited := Sum(deposits, DepositedTo(p.walletTenant, p.wallet));
      var taken := Sum(withdrawals, TakenBy(p.walletTenant, p.wallet, p.walletCustomer));
      if p.guarded > deposited - taken { return 0; }
      withdrawals := withdrawals[p.id := Written(p)];
      changes := 1;
    }

    /**
     Changes the status of one withdrawal at most. Funds once returned are never taken again, so a
     ledger without negative funds stays one.
     */
    method SetStatus(id: Id, update: Update) returns (changes: nat)
      modifies this`withdrawals
      ensures Rows() == Next(old(Rows()), UpdateWithdrawal(id, update))
      ensures withdrawals.Keys == old(withdrawals).Keys
      ensures forall other :: other in withdrawals && other != id ==> withdrawals[other] == old(withdrawals)[other]
      ensures id in withdrawals ==>
        && withdrawals[id] == old(withdrawals)[id].(status := withdrawals[id].status)
        && (!Live(old(withdrawals)[id].status) ==> withdrawals[id] == old(withdrawals)[id])
      ensures changes == if id in withdrawals && withdrawals[id] != old(withdrawals)[id] then 1 else 0
      ensures forall after :: id in withdrawals && Edge(update, old(withdrawals)[id].status, after) ==>
        withdrawals[id].status == after
      ensures changes == 1 ==> Edge(update, old(withdrawals)[id].status, withdrawals[id].status)
      ensures Sound(old(Rows())) ==> Sound(Rows())
    {
      if id !in withdrawals { return 0; }
      UpdateKeepsSoundness(Rows(), id, update);
      UpdatesFollowEdges(update, withdrawals[id].status);
      var x := withdrawals[id];
      var status := Updated(x.status, update);
      withdrawals := withdrawals[id := x.(status := status)];
      changes := if status != x.status then 1 else 0;
    }
  }

  ghost function Run(s: State, statements: seq<Statement>): State {
    if statements == [] then s else Next(Run(s, statements[..|statements| - 1]), statements[|statements| - 1])
  }

  const Empty := State(map[], map[], map[])

  // ---- the preflight's condition and what it takes to keep it -----------------------------

  ghost predicate NoNegativeFunds(s: State) {
    forall id :: id in s.wallets ==> Funds(s, id) >= 0
  }

  /** Every counted withdrawal belongs to its wallet's customer, and amounts are positive. */
  predicate Owned(s: State) {
    && (forall id :: id in s.deposits ==> s.deposits[id].amount > 0)
    && (forall id :: id in s.withdrawals ==>
          var x := s.withdrawals[id];
          && x.amount > 0 && x.wallet in s.wallets
          && (x.tenant == s.wallets[x.wallet].tenant ==> x.customer == s.wallets[x.wallet].customer))
  }

  ghost predicate Sound(s: State) { Owned(s) && NoNegativeFunds(s) }

  /** The bind values agree wherever the row will be counted against the matched wallet. */
  predicate Consistent(p: Insert) {
    p.tenant == p.walletTenant ==> p.customer == p.walletCustomer && p.amount <= p.guarded
  }

  lemma GuardSeesAllFunds(s: State, id: Id)
    requires Owned(s) && id in s.wallets
    ensures Spendable(s, id) == Funds(s, id)
  {
    var w := s.wallets[id];
    forall k | k in s.withdrawals
      ensures TakenFrom(w.tenant, id)(s.withdrawals[k]) == TakenBy(w.tenant, id, w.customer)(s.withdrawals[k]) {
    }
    TotalSame(s.withdrawals, TakenFrom(w.tenant, id), TakenBy(w.tenant, id, w.customer));
  }

  lemma InsertKeepsSound(s: State, p: Insert)
    requires Sound(s) && Consistent(p) && Accepted(s, p)
    ensures Sound(s.(withdrawals := s.withdrawals[p.id := Written(p)]))
  {
    var t := s.(withdrawals := s.withdrawals[p.id := Written(p)]);
    forall id | id in t.wallets ensures Funds(t, id) >= 0 {
      assert Funds(s, id) >= 0;
      TotalWrite(s.withdrawals, p.id, Written(p), TakenFrom(s.wallets[id].tenant, id));
      GuardSeesAllFunds(s, id);
    }
  }

  lemma UpdateKeepsSound(s: State, id: Id, update: Update)
    requires Sound(s) && id in s.withdrawals
    ensures Sound(Next(s, UpdateWithdrawal(id, update)))
  {
    var t := Next(s, UpdateWithdrawal(id, update));
    var x, y := s.withdrawals[id], t.withdrawals[id];
    assert Live(y.status) ==> Live(x.status);
    forall w | w in t.wallets ensures Funds(t, w) >= 0 {
      assert Funds(s, w) >= 0;
      TotalWrite(s.withdrawals, id, y, TakenFrom(s.wallets[w].tenant, w));
    }
  }

  lemma UpdateKeepsSoundness(s: State, id: Id, update: Update)
    requires id in s.withdrawals
    ensures Sound(s) ==> Sound(Next(s, UpdateWithdrawal(id, update)))
  {
    if Sound(s) { UpdateKeepsSound(s, id, update); }
  }

  lemma DepositKeepsSound(s: State, id: Id, deposit: Deposit)
    requires Sound(s)
    ensures Sound(Next(s, AddDeposit(id, deposit)))
  {
    var t := Next(s, AddDeposit(id, deposit));
    forall w | w in t.wallets ensures Funds(t, w) >= 0 {
      assert Funds(s, w) >= 0;
      TotalWrite(s.deposits, id, deposit, DepositedTo(s.wallets[w].tenant, w));
    }
  }

  lemma WalletKeepsSound(s: State, id: Id, wallet: Wallet)
    requires Sound(s)
    ensures Sound(Next(s, AddWallet(id, wallet)))
  {
    var t := Next(s, AddWallet(id, wallet));
    forall w | w in t.wallets ensures Funds(t, w) >= 0 {
      if w in s.wallets {
        assert Funds(s, w) >= 0;
      } else {
        forall k | k in s.deposits ensures DepositedTo(wallet.tenant, w)(s.deposits[k]) >= 0 {
        }
        forall k | k in s.withdrawals ensures TakenFrom(wallet.tenant, w)(s.withdrawals[k]) == 0 {
        }
        TotalBoundsRow(s.deposits, DepositedTo(wallet.tenant, w));
        TotalOfZeroes(s.withdrawals, TakenFrom(wallet.tenant, w));
      }
    }
  }

  lemma StatementKeepsSound(s: State, statement: Statement)
    requires Sound(s)
    requires statement.AddWithdrawal? ==> Consistent(statement.insert)
    ensures Sound(Next(s, statement))
  {
    match statement
    case AddWallet(id, wallet) => WalletKeepsSound(s, id, wallet);
    case AddDeposit(id, deposit) => DepositKeepsSound(s, id, deposit);
    case AddWithdrawal(p, eligible) => if eligible && Accepted(s, p) { InsertKeepsSound(s, p); }
    case UpdateWithdrawal(id, update) => if id in s.withdrawals { UpdateKeepsSound(s, id, update); }
  }

  ghost predicate AllConsistent(statements: seq<Statement>) {
    forall i :: 0 <= i < |statements| && statements[i].AddWithdrawal? ==> Consistent(statements[i].insert)
  }

  // ---- what the statements are for ----------------------------------------------------------

  /** No other withdrawal has this id or reference, and its customer did not use this key before. */
  predicate Unused(s: State, p: Insert) {
    p.id !in s.withdrawals
    && forall id :: id in s.withdrawals ==>
         && s.withdrawals[id].reference != p.reference
         && (s.withdrawals[id].tenant != p.tenant || s.withdrawals[id].customer != p.customer
             || s.withdrawals[id].key != p.key)
  }

  /**
   On a ledger in order an insert is accepted exactly if it is new, for its customer's own wallet,
   and the wallet's funds allow it; it is then submitted, with the values bound to it.
   */
  lemma InsertServed(s: State, p: Insert, eligible: bool)
    requires Sound(s) && p.amount > 0
    ensures Next(s, AddWithdrawal(p, eligible)) ==
      if && eligible && Unused(s, p)
         && p.wallet in s.wallets && s.wallets[p.wallet] == Wallet(p.walletTenant, p.walletCustomer)
         && p.guarded <= Funds(s, p.wallet)
      then s.(withdrawals := s.withdrawals[p.id := Withdrawal(p.tenant, p.customer, p.wallet, p.key, p.reference,
                                                              p.amount, Submitted)])
      else s
  {
    if p.wallet in s.wallets { GuardSeesAllFunds(s, p.wallet); }
  }

  /** A submitted withdrawal of the wallet's tenant takes its amount from the wallet and from no other. */
  lemma InsertTakesFunds(s: State, p: Insert, eligible: bool, wallet: Id)
    requires Next(s, AddWithdrawal(p, eligible)) != s && wallet in s.wallets
    ensures wallet in Next(s, AddWithdrawal(p, eligible)).wallets
    ensures Funds(Next(s, AddWithdrawal(p, eligible)), wallet)
         == Funds(s, wallet) - if wallet == p.wallet && p.tenant == s.wallets[wallet].tenant then p.amount else 0
  {
    TotalWrite(s.withdrawals, p.id, Written(p), TakenFrom(s.wallets[wallet].tenant, wallet));
  }

  /** A completed deposit adds its amount to its wallet's funds, an uncompleted one or a repeated one nothing. */
  lemma DepositAddsFunds(s: State, id: Id, deposit: Deposit, wallet: Id)
    requires wallet in s.wallets
    ensures wallet in Next(s, AddDeposit(id, deposit)).wallets
    ensures Funds(Next(s, AddDeposit(id, deposit)), wallet)
         == Funds(s, wallet)
            + if id !in s.deposits && deposit.amount > 0 && deposit.completed
                 && (deposit.wallet, deposit.tenant) == (wallet, s.wallets[wallet].tenant)
              then deposit.amount else 0
  {
    TotalWrite(s.deposits, id, deposit, DepositedTo(s.wallets[wallet].tenant, wallet));
  }

  /** Ending a withdrawal by a refusal gives exactly its amount back; every other change leaves funds alone. */
  lemma UpdateMovesFunds(s: State, id: Id, update: Update, wallet: Id)
    requires id in s.withdrawals && wallet in s.wallets && s.withdrawals[id].status != SubmittedToCregis
    ensures wallet in Next(s, UpdateWithdrawal(id, update)).wallets
    ensures var x, status := s.withdrawals[id], s.withdrawals[id].status;
      Funds(Next(s, UpdateWithdrawal(id, update)), wallet)
      == Funds(s, wallet)
         + if && (x.wallet, x.tenant) == (wallet, s.wallets[wallet].tenant)
              && ((status == Submitted && update == Reject) || (status == Executing && update == Fail)
                  || (status == Exception && update in {ReconcileFailed, ReconcileCancelled}))
           then x.amount else 0
  {
    var y := Next(s, UpdateWithdrawal(id, update)).withdrawals[id];
    TotalWrite(s.withdrawals, id, y, TakenFrom(s.wallets[wallet].tenant, wallet));
  }

  /** Whatever the gateway has run, the migration's negative_wallet_funds count is zero. */
  lemma {:induction false} PreflightAlwaysPasses(statements: seq<Statement>)
    requires AllConsistent(statements)
    ensures NoNegativeFunds(Run(Empty, statements))
    ensures Sound(Run(Empty, statements))
  {
    if statements != [] {
      PreflightAlwaysPasses(statements[..|statements| - 1]);
      StatementKeepsSound(Run(Empty, statements[..|statements| - 1]), statements[|statements| - 1]);
    }
  }

  // ---- the condition on the bind values is exact ------------------------------------------

  /** No run around this one insert, consistent everywhere else, ever gives a wallet negative funds. */
  ghost predicate NeverOverdraws(p: Insert) {
    forall before, after :: AllConsistent(before) && AllConsistent(after) ==>
      NoNegativeFunds(Run(Empty, before + [AddWithdrawal(p, true)] + after))
  }

  lemma RunNext(s: State, statements: seq<Statement>, statement: Statement)
    ensures Run(s, statements + [statement]) == Next(Run(s, statements), statement)
  {
    assert (statements + [statement])[..|statements|] == statements;
  }

  /** One wallet, with one deposit just large enough for the guarded amount. */
  function Funding(p: Insert): seq<Statement> {
    [AddWallet(p.wallet, Wallet(p.walletTenant, p.walletCustomer))]
    + if p.guarded > 0 then [AddDeposit(0, Deposit(p.walletTenant, p.wallet, p.guarded, true))] else []
  }

  function Funded(p: Insert): State {
    State(map[p.wallet := Wallet(p.walletTenant, p.walletCustomer)],
          if p.guarded > 0 then map[0 := Deposit(p.walletTenant, p.wallet, p.guarded, true)] else map[],
          map[])
  }

  lemma FundingFunds(p: Insert)
    ensures Run(Empty, Funding(p)) == Funded(p) && AllConsistent(Funding(p))
  {
    var wallet := AddWallet(p.wallet, Wallet(p.walletTenant, p.walletCustomer));
    RunNext(Empty, [], wallet);
    assert [] + [wallet] == [wallet];
    if p.guarded > 0 {
      RunNext(Empty, [wallet], AddDeposit(0, Deposit(p.walletTenant, p.wallet, p.guarded, true)));
    } else {
      assert Funding(p) == [wallet];
    }
  }

  lemma FundedAccepts(p: Insert)
    requires p.amount > 0
    ensures Sound(Funded(p)) && Accepted(Funded(p), p)
    ensures Funds(Funded(p), p.wallet) == if p.guarded > 0 then p.guarded else 0
  {
    var s := Funded(p);
    var deposited := DepositedTo(p.walletTenant, p.wallet);
    if p.guarded > 0 {
      assert s.deposits == map[][0 := Deposit(p.walletTenant, p.wallet, p.guarded, true)];
      TotalWrite(map[], 0, Deposit(p.walletTenant, p.wallet, p.guarded, true), deposited);
    }
    GuardSeesAllFunds(s, p.wallet);
  }

  /** Writing more than was compared: the insert alone takes what is not there. */
  lemma ExcessOverdraws(p: Insert)
    requires p.amount > 0 && p.tenant == p.walletTenant && p.amount > p.guarded
    ensures var t := Run(Empty, Funding(p) + [AddWithdrawal(p, true)]);
      p.wallet in t.wallets && Funds(t, p.wallet) < 0
  {
    FundingFunds(p);
    FundedAccepts(p);
    RunNext(Empty, Funding(p), AddWithdrawal(p, true));
    TotalWrite(Funded(p).withdrawals, p.id, Written(p), TakenFrom(p.walletTenant, p.wallet));
  }

  /** The owner takes everything the guard still shows. */
  function OwnersInsert(p: Insert): Insert {
    p.(id := p.id + 1, reference := p.reference + 1, tenant := p.walletTenant, customer := p.walletCustomer,
       amount := p.guarded)
  }

  /**
   Written under another customer's id the insert escapes its own guard: the owner of the wallet
   can take the same deposit once more, with an insert that is itself consistent.
   */
  lemma MismatchOverdraws(p: Insert)
    requires 0 < p.amount <= p.guarded && p.tenant == p.walletTenant && p.customer != p.walletCustomer
    ensures Consistent(OwnersInsert(p))
    ensures var t := Run(Empty, Funding(p) + [AddWithdrawal(p, true)] + [AddWithdrawal(OwnersInsert(p), true)]);
      p.wallet in t.wallets && Funds(t, p.wallet) == -p.amount
  {
    var q, s, taken := OwnersInsert(p), Funded(p), TakenFrom(p.walletTenant, p.wallet);
    FundingFunds(p);
    FundedAccepts(p);
    RunNext(Empty, Funding(p), AddWithdrawal(p, true));
    RunNext(Empty, Funding(p) + [AddWithdrawal(p, true)], AddWithdrawal(q, true));
    var once := Next(s, AddWithdrawal(p, true));
    TotalWrite(s.withdrawals, p.id, Written(p), TakenBy(p.walletTenant, p.wallet, p.walletCustomer));
    TotalWrite(s.withdrawals, p.id, Written(p), taken);
    GuardSeesAllFunds(s, p.wallet);
    assert Accepted(once, q);
    TotalWrite(once.withdrawals, q.id, Written(q), taken);
  }

  /**
   An insert can never, in any run that is consistent otherwise, lead to negative funds exactly
   when its own bind values are consistent: the customer written is the customer matched, and no
   more is written than was compared, wherever the row counts against the matched wallet.
   */
  lemma NeverOverdrawsIffConsistent(p: Insert)
    requires p.amount > 0
    ensures NeverOverdraws(p) <==> Consistent(p)
  {
    var insert := [AddWithdrawal(p, true)];
    if Consistent(p) {
      forall before, after | AllConsistent(before) && AllConsistent(after)
        ensures NoNegativeFunds(Run(Empty, before + insert + after))
      {
        assert AllConsistent(before + insert + after);
        PreflightAlwaysPasses(before + insert + after);
      }
    } else {
      FundingFunds(p);
      if p.amount > p.guarded {
        ExcessOverdraws(p);
        assert Funding(p) + insert + [] == Funding(p) + insert;
        assert AllConsistent([]) && !NoNegativeFunds(Run(Empty, Funding(p) + insert + []));
      } else {
        MismatchOverdraws(p);
        var after := [AddWithdrawal(OwnersInsert(p), true)];
        assert AllConsistent(after) && !NoNegativeFunds(Run(Empty, Funding(p) + insert + after));
      }
    }
  }

  /**
   Funds go back to the wallet only by rejecting, failing or cancelling: these statements, and a
   callback that names such an outcome, are the ones that end a live withdrawal.
   */
  lemma DiesOnlyByRefusal(s: State, statement: Statement, id: Id)
    requires id in s.withdrawals && Live(s.withdrawals[id].status)
    ensures var before, after := s.withdrawals[id].status, Next(s, statement).withdrawals[id].status;
      !Live(after) <==>
        && statement.UpdateWithdrawal? && statement.id == id
        && match before
           case Submitted => statement.update == Reject
           case Executing => statement.update == Fail
           case Exception => statement.update == ReconcileFailed || statement.update == ReconcileCancelled
           case SubmittedToCregis =>
             statement.update in {CallbackFinishes(Rejected), CallbackFinishes(Failed), CallbackFinishes(Cancelled)}
           case _ => false
  {
  }

  lemma StatusAfter(s: State, id: Id, update: Update, after: Status)
    requires id in s.withdrawals && Edge(update, s.withdrawals[id].status, after)
    ensures id in Next(s, UpdateWithdrawal(id, update)).withdrawals
         && Next(s, UpdateWithdrawal(id, update)).withdrawals[id] == s.withdrawals[id].(status := after)
  {
  }

  ghost predicate LiveThroughout(start: State, statements: seq<Statement>, id: Id) {
    forall k :: 0 <= k <= |statements| ==>
      id in Run(start, statements[..k]).withdrawals && Live(Run(start, statements[..k]).withdrawals[id].status)
  }

  /**
   From any ledger a submitted withdrawal can be approved, started, stored with its payout number
   and completed; its amount stays taken all along and nothing else of it changes.
   */
  lemma PaidOutRun(s: State, id: Id) returns (statements: seq<Statement>)
    requires id in s.withdrawals && s.withdrawals[id].status == Submitted
    ensures statements == [UpdateWithdrawal(id, Approve), UpdateWithdrawal(id, Start), UpdateWithdrawal(id, Persist),
                           UpdateWithdrawal(id, CallbackFinishes(Completed))]
    ensures LiveThroughout(s, statements, id)
    ensures Run(s, statements).withdrawals[id] == s.withdrawals[id].(status := Completed)
  {
    var a, b, c := UpdateWithdrawal(id, Approve), UpdateWithdrawal(id, Start), UpdateWithdrawal(id, Persist);
    var d := UpdateWithdrawal(id, CallbackFinishes(Completed));
    statements := [a, b, c, d];
    assert statements[..0] == [] && statements[..1] == [] + [a] && statements[..2] == [a] + [b];
    assert statements[..3] == [a, b] + [c] && statements[..4] == [a, b, c] + [d] == statements;
    RunNext(s, [], a);
    RunNext(s, [a], b);
    RunNext(s, [a, b], c);
    RunNext(s, [a, b, c], d);
    StatusAfter(s, id, Approve, Status.Approved);
    StatusAfter(Run(s, [a]), id, Start, Executing);
    StatusAfter(Run(s, [a, b]), id, Persist, SubmittedToCregis);
    StatusAfter(Run(s, [a, b, c]), id, CallbackFinishes(Completed), Completed);
  }

  /** Rejected, failed and cancelled withdrawals stay so: returned funds are never taken again. */
  lemma DeadStaysDead(s: State, statement: Statement, id: Id)
    requires id in s.withdrawals && !Live(s.withdrawals[id].status)
    ensures id in Next(s, statement).withdrawals && Next(s, statement).withdrawals[id] == s.withdrawals[id]
  {
  }
}
