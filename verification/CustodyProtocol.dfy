/**
 The withdrawal protocol as a state machine: customer, administrator, payout requests,
 provider callbacks, reconciler, the Core worker and Core's other users of the same balances
 interleave freely. Each step is one database transaction, or one external call.
 */
module CustodyProtocol {
  import opened Common
  import opened Custody
  import opened Sums

  /** Core keeps eight decimals; the custody API counts in micro-units (six decimals). */
  function ToAtoms(micro: int): int { 100 * micro }

  datatype Balance = Balance(available: int, frozen: int)

  /** What came back from the provider's payout endpoint. */
  datatype Answer = Accepted(cid: Id) | InvalidAddress | Unclear

  /** A payout request in flight, between two of its own database batches. */
  datatype Phase = CheckingAddress | CallingProvider | Refused | Answered(answer: Answer)
  datatype Executor = Executor(withdrawal: Id, phase: Phase)

  datatype Payout = Payout(withdrawal: Id, answer: Answer)

  /** A payout Core makes of its own, without the custody bank: frozen until rejected or executed. */
  datatype Hold = Hold(wallet: Id, atoms: int, approved: bool)

  /** One completed withdrawal in the journal: principal line and fee line. */
  datatype Entry = Entry(withdrawal: Id, principal: int, fee: int)

  /**
   One customer's balance of one asset in atoms: Core's Account and CryptoWallet rows, and what has
   flowed through them so far.
   */
  datatype Purse = Purse(
    account: Balance,
    cryptoWallet: Balance,
    credited: int,  // history: credited to both rows
    spent: int,     // history: gone out by Core's own payouts and conversions
    adjusted: int)  // history: credited to the Account row alone

  datatype Money = Money(purses: map<Id, Purse>, holds: map<Id, Hold>)

  datatype State = State(
    withdrawals: map<Id, Withdrawal>,
    money: Money,
    events: Events,
    executors: map<Id, Executor>,
    payouts: seq<Payout>,  // history of external payout calls
    journal: seq<Entry>)   // history of completed withdrawals

  const Empty := State(map[], Money(map[], map[]), {}, map[], [], [])

  datatype Step =
    | Create(id: Id, wallet: Id, amount: int, fee: int)
    | Act(id: Id, row: RowStep)
    | Callback(id: Id, cid: Id, code: FinalCode, exact: bool)
    | Start(request: Id, id: Id)
    | AddressChecked(request: Id, legal: bool)
    | CallProvider(request: Id, answer: Answer)
    | Finish(request: Id)
    | Drop(request: Id)
    | CoreReserve(id: Id)
    | CoreRelease(id: Id)
    | CoreSettle(id: Id)
    | Credit(wallet: Id, atoms: nat)
    | RejectLinked(id: Id)
    | ExecuteLinked(id: Id)
    | Freeze(hold: Id, wallet: Id, atoms: nat)
    | ApproveHold(hold: Id)
    | RejectHold(hold: Id)
    | ExecuteHold(hold: Id)
    | Convert(wallet: Id, atoms: nat)
    | AdjustAccount(wallet: Id, atoms: nat)

  // ---- the balance guard of a new withdrawal --------------------------------------------

  function UnreservedOf(wallet: Id): Withdrawal -> int {
    (x: Withdrawal) => if x.wallet == wallet then Unreserved(x) else 0
  }

  function HeldOf(wallet: Id): Withdrawal -> int {
    (x: Withdrawal) => if x.wallet == wallet then Held(x) else 0
  }

  function PaidOutOf(wallet: Id): Withdrawal -> int {
    (x: Withdrawal) => if x.wallet == wallet then PaidOut(x) else 0
  }

  function HoldOf(wallet: Id): Hold -> int {
    (h: Hold) => if h.wallet == wallet then h.atoms else 0
  }

  function PurseOf(m: Money, wallet: Id): Purse {
    if wallet in m.purses then m.purses[wallet] else Purse(Balance(0, 0), Balance(0, 0), 0, 0, 0)
  }

  /** CAST(FLOOR("availableBalance" * 1000000) AS BIGINT), and 0 without an account. */
  function AvailableMicro(m: Money, wallet: Id): int {
    PurseOf(m, wallet).account.available / 100
  }

  ghost predicate CanCreate(s: State, wallet: Id, amount: int) {
    amount <= AvailableMicro(s.money, wallet) - Total(s.withdrawals, UnreservedOf(wallet))
  }

  function NewWithdrawal(wallet: Id, amount: int, fee: int): Withdrawal {
    Withdrawal(wallet, amount, fee, amount - fee, Submitted, None, PendingReservation, NoOperation)
  }

  // ---- transitions ----------------------------------------------------------------------

  function WithRow(s: State, id: Id, x: Withdrawal): State {
    s.(withdrawals := s.withdrawals[id := x])
  }

  function Moved(b: Balance, available: int, frozen: int): Balance {
    Balance(b.available + available, b.frozen + frozen)
  }

  /** Both mirrored Core balances move by the same amount. */
  function MoveBoth(p: Purse, available: int, frozen: int): Purse {
    p.(account := Moved(p.account, available, frozen), cryptoWallet := Moved(p.cryptoWallet, available, frozen))
  }

  predicate BothAvailable(p: Purse, atoms: int) {
    p.account.available >= atoms && p.cryptoWallet.available >= atoms
  }

  predicate BothFrozen(p: Purse, atoms: int) {
    p.account.frozen >= atoms && p.cryptoWallet.frozen >= atoms
  }

  function Atoms(x: Withdrawal): int { ToAtoms(x.amount) }

  predicate ReserveGuard(s: State, x: Withdrawal) {
    x.accounting == Reserving && x.custody == Submitted && BothAvailable(PurseOf(s.money, x.wallet), Atoms(x))
  }

  predicate ReleaseEvidence(s: State, x: Withdrawal) {
    x.cid == None || OnlyOneFailureReported(s.events, x.cid.value)
  }

  predicate ReleaseGuard(s: State, x: Withdrawal) {
    && x.accounting == Releasing && x.custody in {Rejected, Failed} && ReleaseEvidence(s, x)
    && (x.operation == NoOperation ||
        ((x.operation == OpSubmitted || x.operation == OpProcessing)
         && BothFrozen(PurseOf(s.money, x.wallet), Atoms(x))))
  }

  predicate SettleEvidence(s: State, x: Withdrawal) {
    x.cid != None && OnlyCompletedReported(s.events, x.cid.value)
  }

  predicate SettleGuard(s: State, x: Withdrawal) {
    && x.accounting == Settling && x.custody == Completed && SettleEvidence(s, x)
    && x.operation == OpProcessing && BothFrozen(PurseOf(s.money, x.wallet), Atoms(x))
  }

  /** The statement a payout request issues once the provider has answered or was not called. */
  function Conclusion(phase: Phase): Option<RowStep> {
    match phase
    case Refused | Answered(InvalidAddress) => Some(DoFail)
    case Answered(Accepted(cid)) => Some(DoPersist(cid))
    case Answered(Unclear) => Some(DoMarkException)
    case _ => None
  }

  function WithPurse(m: Money, wallet: Id, p: Purse): Money {
    m.(purses := m.purses[wallet := p])
  }

  /** A row rewritten together with both balances of its wallet. */
  function Booked(s: State, id: Id, x: Withdrawal, available: int, frozen: int): State {
    WithRow(s, id, x)
    .(money := WithPurse(s.money, x.wallet, MoveBoth(PurseOf(s.money, x.wallet), available, frozen)))
  }

  /** Core freezes the amount and links a submitted operation. */
  function ReserveStep(s: State, id: Id): State
    requires id in s.withdrawals
  {
    var x := s.withdrawals[id];
    if ReserveGuard(s, x) then Booked(s, id, Reserve(x), -Atoms(x), Atoms(x)) else s
  }

  /** Core unfreezes the amount, or has nothing to unfreeze. */
  function ReleaseStep(s: State, id: Id): State
    requires id in s.withdrawals
  {
    var x := s.withdrawals[id];
    if !ReleaseGuard(s, x) then s
    else if x.operation == NoOperation then WithRow(s, id, ReleaseFunds(x))
    else Booked(s, id, ReleaseFunds(x), Atoms(x), -Atoms(x))
  }

  /** Core takes the frozen amount and journals principal and fee. */
  function SettleStep(s: State, id: Id): State
    requires id in s.withdrawals
  {
    var x := s.withdrawals[id];
    if SettleGuard(s, x)
    then Booked(s, id, Settle(x), 0, -Atoms(x)).(journal := s.journal + [Entry(id, x.net, x.fee)])
    else s
  }

  /** An administrator rejects the linked transfer by hand: the funds are free again. */
  function RejectLinkedStep(s: State, id: Id): State
    requires id in s.withdrawals
  {
    var x := s.withdrawals[id];
    if x.operation == OpSubmitted && PurseOf(s.money, x.wallet).account.frozen >= Atoms(x)
    then Booked(s, id, RejectTransfer(x), Atoms(x), -Atoms(x))
    else s
  }

  /** An administrator executes the linked transfer by hand: the funds go out and are journaled. */
  function ExecuteLinkedStep(s: State, id: Id): State
    requires id in s.withdrawals
  {
    var x := s.withdrawals[id];
    if x.operation == OpProcessing && PurseOf(s.money, x.wallet).account.frozen >= Atoms(x)
    then Booked(s, id, ExecuteTransfer(x), 0, -Atoms(x)).(journal := s.journal + [Entry(id, x.net, x.fee)])
    else s
  }

  /** Core's own business with the balances: no withdrawal is looked at. */
  function MoneyNext(m: Money, step: Step): Money {
    match step
    case Credit(wallet, atoms) => WithPurse(m, wallet, Deposited(PurseOf(m, wallet), atoms))
    case Freeze(hold, wallet, atoms) => if hold in m.holds then m else FreezeHold(m, hold, wallet, atoms)
    case ApproveHold(hold) =>
      if hold in m.holds then m.(holds := m.holds[hold := m.holds[hold].(approved := true)]) else m
    case RejectHold(hold) => if hold in m.holds then ReturnHold(m, hold) else m
    case ExecuteHold(hold) => if hold in m.holds then SpendHold(m, hold) else m
    case Convert(wallet, atoms) =>
      if BothAvailable(PurseOf(m, wallet), atoms)
      then WithPurse(m, wallet, Converted(PurseOf(m, wallet), atoms))
      else m
    case AdjustAccount(wallet, atoms) => WithPurse(m, wallet, Adjusted(PurseOf(m, wallet), atoms))
    case _ => m
  }

  function Deposited(p: Purse, atoms: nat): Purse { MoveBoth(p, atoms, 0).(credited := p.credited + atoms) }

  function Adjusted(p: Purse, atoms: nat): Purse {
    p.(account := Moved(p.account, atoms, 0), adjusted := p.adjusted + atoms)
  }

  function Converted(p: Purse, atoms: nat): Purse { MoveBoth(p, 0 - atoms, 0).(spent := p.spent + atoms) }

  function FreezeHold(m: Money, hold: Id, wallet: Id, atoms: nat): Money {
    var p := PurseOf(m, wallet);
    if BothAvailable(p, atoms)
    then WithPurse(m, wallet, MoveBoth(p, 0 - atoms, atoms)).(holds := m.holds[hold := Hold(wallet, atoms, false)])
    else m
  }

  function ReturnHold(m: Money, hold: Id): Money
    requires hold in m.holds
  {
    var h := m.holds[hold];
    var p := PurseOf(m, h.wallet);
    if !h.approved && p.account.frozen >= h.atoms
    then WithPurse(m, h.wallet, MoveBoth(p, h.atoms, -h.atoms)).(holds := m.holds - {hold})
    else m
  }

  function SpendHold(m: Money, hold: Id): Money
    requires hold in m.holds
  {
    var h := m.holds[hold];
    var p := PurseOf(m, h.wallet);
    if h.approved && p.account.frozen >= h.atoms
    then WithPurse(m, h.wallet, MoveBoth(p, 0, -h.atoms).(spent := p.spent + h.atoms)).(holds := m.holds - {hold})
    else m
  }

  ghost function Next(s: State, step: Step): State {
    match step
    case Create(id, wallet, amount, fee) =>
      if id !in s.withdrawals && 0 <= fee < amount && CanCreate(s, wallet, amount)
      then WithRow(s, id, NewWithdrawal(wallet, amount, fee))
      else s
    case Act(id, row) =>
      if id in s.withdrawals && !row.ByExecutor() && !row.DoFinal? && !row.DoConflict?
      then WithRow(s, id, RowNext(s.withdrawals[id], row, s.events))
      else s
    case Callback(id, cid, code, exact) =>
      if id in s.withdrawals
      then WithRow(s, id, RowNext(s.withdrawals[id], if exact then DoFinal(cid, code) else DoConflict, s.events))
           .(events := s.events + {(cid, code)})
      else s
    case Start(request, id) =>
      if request !in s.executors && id in s.withdrawals && StartExecution(s.withdrawals[id]) != s.withdrawals[id]
      then WithRow(s, id, StartExecution(s.withdrawals[id]))
           .(executors := s.executors[request := Executor(id, CheckingAddress)])
      else s
    case AddressChecked(request, legal) =>
      if request in s.executors && s.executors[request].phase == CheckingAddress
      then s.(executors := s.executors[request :=
             s.executors[request].(phase := if legal then CallingProvider else Refused)])
      else s
    case CallProvider(request, answer) =>
      if request in s.executors && s.executors[request].phase == CallingProvider
      then s.(executors := s.executors[request := s.executors[request].(phase := Answered(answer))],
              payouts := s.payouts + [Payout(s.executors[request].withdrawal, answer)])
      else s
    case Finish(request) =>
      if request in s.executors && Conclusion(s.executors[request].phase) != None
         && s.executors[request].withdrawal in s.withdrawals
      then var e := s.executors[request];
           WithRow(s, e.withdrawal, RowNext(s.withdrawals[e.withdrawal], Conclusion(e.phase).value, s.events))
           .(executors := s.executors - {request})
      else s
    case Drop(request) => s.(executors := s.executors - {request})
    case CoreReserve(id) => if id in s.withdrawals then ReserveStep(s, id) else s
    case CoreRelease(id) => if id in s.withdrawals then ReleaseStep(s, id) else s
    case CoreSettle(id) => if id in s.withdrawals then SettleStep(s, id) else s
    case RejectLinked(id) => if id in s.withdrawals then RejectLinkedStep(s, id) else s
    case ExecuteLinked(id) => if id in s.withdrawals then ExecuteLinkedStep(s, id) else s
    case _ => s.(money := MoneyNext(s.money, step))
  }

  ghost function Run(s: State, steps: seq<Step>): State {
    if steps == [] then s else Next(Run(s, steps[..|steps| - 1]), steps[|steps| - 1])
  }

  ghost predicate Reachable(s: State) {
    exists steps :: s == Run(Empty, steps)
  }

  // ---- inductive invariant --------------------------------------------------------------

  type Rows = map<Id, Withdrawal>

  predicate RowsValid(rows: Rows) {
    forall id :: id in rows ==> Valid(rows[id])
  }

  /**
   Frozen funds are exactly the held withdrawals and Core's own payouts, the two rows differ by
   what was adjusted on the account alone, and nothing ever credited is lost.
   */
  ghost predicate Balanced(rows: Rows, m: Money, wallet: Id) {
    var p := PurseOf(m, wallet);
    && p.cryptoWallet.available >= 0 && p.adjusted >= 0
    && p.cryptoWallet.frozen == ToAtoms(Total(rows, HeldOf(wallet))) + Total(m.holds, HoldOf(wallet))
    && p.account == Balance(p.cryptoWallet.available + p.adjusted, p.cryptoWallet.frozen)
    && p.credited == p.cryptoWallet.available + p.cryptoWallet.frozen
                     + ToAtoms(Total(rows, PaidOutOf(wallet))) + p.spent
  }

  ghost predicate Books(rows: Rows, m: Money) {
    && (forall w :: Balanced(rows, m, w))
    && (forall h :: h in m.holds ==> m.holds[h].atoms >= 0)
  }

  /** Given up before any payout number was known. */
  predicate GivenUp(x: Withdrawal) { x.custody in {Rejected, Failed} && x.cid == None }

  /** A payout request belongs to one started withdrawal, and no two requests share one. */
  predicate ExecutorsOk(rows: Rows, executors: map<Id, Executor>) {
    && (forall r :: r in executors ==>
          && executors[r].withdrawal in rows
          && PastApproval(rows[executors[r].withdrawal])
          && Committed(rows[executors[r].withdrawal])
          && !GivenUp(rows[executors[r].withdrawal]))
    && (forall r, q :: r in executors && q in executors && r != q ==>
          executors[r].withdrawal != executors[q].withdrawal)
  }

  /** Payouts were called for started withdrawals only, and at most once for each. */
  predicate PayoutsOk(rows: Rows, payouts: seq<Payout>) {
    && (forall i :: 0 <= i < |payouts| ==>
          && payouts[i].withdrawal in rows && PastApproval(rows[payouts[i].withdrawal])
          && Committed(rows[payouts[i].withdrawal]))
    && (forall i, j :: 0 <= i < j < |payouts| ==> payouts[i].withdrawal != payouts[j].withdrawal)
  }

  /** A request whose withdrawal was already paid for is the one holding that answer. */
  predicate AnswersHeld(executors: map<Id, Executor>, payouts: seq<Payout>) {
    forall r, i :: r in executors && 0 <= i < |payouts| && payouts[i].withdrawal == executors[r].withdrawal ==>
      executors[r].phase == Answered(payouts[i].answer)
  }

  /** Given up without the provider's word only if the provider refused the address outright. */
  predicate Unpaid(rows: Rows, payouts: seq<Payout>) {
    forall i :: 0 <= i < |payouts| && payouts[i].withdrawal in rows && GivenUp(rows[payouts[i].withdrawal])
      ==> payouts[i].answer == InvalidAddress
  }

  predicate Journaled(journal: seq<Entry>, id: Id) {
    exists i :: 0 <= i < |journal| && journal[i].withdrawal == id
  }

  /** The journal holds exactly one entry, of the right amounts, per completed operation. */
  predicate JournalOk(rows: Rows, journal: seq<Entry>) {
    && (forall i :: 0 <= i < |journal| ==>
          && journal[i].withdrawal in rows
          && rows[journal[i].withdrawal].operation == OpCompleted
          && journal[i].principal == rows[journal[i].withdrawal].net
          && journal[i].fee == rows[journal[i].withdrawal].fee)
    && (forall i, j :: 0 <= i < j < |journal| ==> journal[i].withdrawal != journal[j].withdrawal)
    && (forall id :: id in rows && rows[id].operation == OpCompleted ==> Journaled(journal, id))
  }

  ghost predicate Inv(s: State) {
    && RowsValid(s.withdrawals)
    && Books(s.withdrawals, s.money)
    && ExecutorsOk(s.withdrawals, s.executors)
    && PayoutsOk(s.withdrawals, s.payouts) && AnswersHeld(s.executors, s.payouts)
    && Unpaid(s.withdrawals, s.payouts)
    && JournalOk(s.withdrawals, s.journal)
  }

  /** Every withdrawal on file stays on file and only advances. */
  predicate AllAdvance(rows: Rows, later: Rows) {
    forall id :: id in rows ==> id in later && Advances(rows[id], later[id])
  }

  // ---- preservation, step by step ---------------------------------------------------------

  /** What a rewritten row and its wallet's balances must satisfy for the books to stay right. */
  predicate BookedChange(x: Withdrawal, y: Withdrawal, available: int, frozen: int) {
    && y.wallet == x.wallet
    && frozen == ToAtoms(Held(y) - Held(x))
    && available + frozen == ToAtoms(PaidOut(x) - PaidOut(y))
  }

  /** One row rewritten and the balances of its wallet moved to match. */
  lemma WriteKeepsBooks(rows: Rows, m: Money, id: Id, y: Withdrawal, available: int, frozen: int)
    requires Books(rows, m) && id in rows && BookedChange(rows[id], y, available, frozen)
    requires PurseOf(m, y.wallet).cryptoWallet.available + available >= 0
    ensures Books(rows[id := y], WithPurse(m, y.wallet, MoveBoth(PurseOf(m, y.wallet), available, frozen)))
  {
    var written := rows[id := y];
    var after := WithPurse(m, y.wallet, MoveBoth(PurseOf(m, y.wallet), available, frozen));
    forall w ensures Balanced(written, after, w) {
      assert Balanced(rows, m, w);
      TotalWrite(rows, id, y, HeldOf(w));
      TotalWrite(rows, id, y, PaidOutOf(w));
    }
  }

  /** A row on file or a new one, written without moving money. */
  lemma WriteKeepsUnmovedBooks(rows: Rows, m: Money, id: Id, y: Withdrawal)
    requires Books(rows, m)
    requires if id in rows then BookedChange(rows[id], y, 0, 0) else Held(y) == PaidOut(y) == 0
    ensures Books(rows[id := y], m)
  {
    var written := rows[id := y];
    forall w ensures Balanced(written, m, w) {
      assert Balanced(rows, m, w);
      TotalWrite(rows, id, y, HeldOf(w));
      TotalWrite(rows, id, y, PaidOutOf(w));
    }
  }

  /** Advancing a row without completing its operation keeps the journal in order. */
  lemma WriteKeepsJournal(rows: Rows, journal: seq<Entry>, id: Id, y: Withdrawal)
    requires JournalOk(rows, journal) && id in rows && Advances(rows[id], y)
    requires y.operation == OpCompleted ==> rows[id].operation == OpCompleted
    ensures JournalOk(rows[id := y], journal)
  {
    forall k | k in rows[id := y] && rows[id := y][k].operation == OpCompleted
      ensures Journaled(journal, k)
    {
      assert k in rows && rows[k].operation == OpCompleted;
    }
  }

  /** What a rewritten row must respect for requests and payouts to stay in order. */
  predicate NotGivenUpBy(x: Withdrawal, y: Withdrawal) {
    && (PastApproval(x) ==> PastApproval(y))
    && (GivenUp(y) && PastApproval(x) ==> GivenUp(x))
    && (Committed(x) && PastApproval(x) ==> Committed(y))
  }

  lemma WriteKeepsRequests(s: State, id: Id, y: Withdrawal)
    requires ExecutorsOk(s.withdrawals, s.executors) && PayoutsOk(s.withdrawals, s.payouts)
    requires Unpaid(s.withdrawals, s.payouts)
    requires id in s.withdrawals && NotGivenUpBy(s.withdrawals[id], y)
    ensures var rows := s.withdrawals[id := y];
      ExecutorsOk(rows, s.executors) && PayoutsOk(rows, s.payouts) && Unpaid(rows, s.payouts)
  {
  }

  /** A later version of a row that neither gives a started withdrawal up nor completes its operation. */
  predicate OrdinaryChange(x: Withdrawal, y: Withdrawal) {
    && Valid(y) && Advances(x, y) && NotGivenUpBy(x, y)
    && (y.operation == OpCompleted ==> x.operation == OpCompleted)
  }

  /** A row rewritten without moving money. */
  lemma WriteKeepsInv(s: State, id: Id, y: Withdrawal)
    requires Inv(s) && id in s.withdrawals
    requires OrdinaryChange(s.withdrawals[id], y) && BookedChange(s.withdrawals[id], y, 0, 0)
    ensures Inv(WithRow(s, id, y)) && AllAdvance(s.withdrawals, WithRow(s, id, y).withdrawals)
  {
    WriteKeepsUnmovedBooks(s.withdrawals, s.money, id, y);
    WriteKeepsJournal(s.withdrawals, s.journal, id, y);
    WriteKeepsRequests(s, id, y);
  }

  /** A row rewritten together with both mirrored balances of its wallet. */
  lemma MoveKeepsInv(s: State, id: Id, y: Withdrawal, available: int, frozen: int)
    requires Inv(s) && id in s.withdrawals
    requires OrdinaryChange(s.withdrawals[id], y) && BookedChange(s.withdrawals[id], y, available, frozen)
    requires PurseOf(s.money, y.wallet).cryptoWallet.available + available >= 0
    ensures var t := Booked(s, id, y, available, frozen);
      Inv(t) && AllAdvance(s.withdrawals, t.withdrawals)
  {
    WriteKeepsBooks(s.withdrawals, s.money, id, y, available, frozen);
    WriteKeepsJournal(s.withdrawals, s.journal, id, y);
    WriteKeepsRequests(s, id, y);
  }

  /** A withdrawal whose processing operation completes. */
  predicate Completes(x: Withdrawal, y: Withdrawal) {
    && x.operation == OpProcessing && y.operation == OpCompleted
    && Valid(y) && Advances(x, y) && NotGivenUpBy(x, y)
  }

  lemma CompletionIsBooked(x: Withdrawal, y: Withdrawal)
    requires Completes(x, y)
    ensures BookedChange(x, y, 0, -Atoms(y))
  {
  }

  /** An operation completed: its funds go out for good and are journaled. */
  lemma CompletionKeepsInv(s: State, id: Id, y: Withdrawal)
    requires Inv(s) && id in s.withdrawals && Completes(s.withdrawals[id], y)
    ensures var t := Booked(s, id, y, 0, -Atoms(y)).(journal := s.journal + [Entry(id, y.net, y.fee)]);
      Inv(t) && AllAdvance(s.withdrawals, t.withdrawals)
  {
    assert Balanced(s.withdrawals, s.money, y.wallet);
    CompletionIsBooked(s.withdrawals[id], y);
    WriteKeepsBooks(s.withdrawals, s.money, id, y, 0, -Atoms(y));
    WriteKeepsRequests(s, id, y);
    CompletionKeepsJournal(s.withdrawals, s.journal, id, y);
  }

  lemma CompletionKeepsJournal(rows: Rows, journal: seq<Entry>, id: Id, y: Withdrawal)
    requires JournalOk(rows, journal) && id in rows && rows[id].operation != OpCompleted && y.operation == OpCompleted
    ensures JournalOk(rows[id := y], journal + [Entry(id, y.net, y.fee)])
  {
    var longer := journal + [Entry(id, y.net, y.fee)];
    assert longer[|journal|].withdrawal == id;
    forall k | k in rows && k != id && rows[k].operation == OpCompleted
      ensures Journaled(longer, k)
    {
      assert Journaled(journal, k);
      var i :| 0 <= i < |journal| && journal[i].withdrawal == k;
      assert longer[i].withdrawal == k;
    }
  }

  /** No statement except the payout request's own gives up a started withdrawal or completes one. */
  lemma OnlyExecutorGivesUp(x: Withdrawal, row: RowStep, events: Events)
    requires Valid(x) && !row.DoFail?
    ensures NotGivenUpBy(x, RowNext(x, row, events))
    ensures RowNext(x, row, events).operation == OpCompleted ==> x.operation == OpCompleted
  {
  }

  lemma RowStepKeepsInv(s: State, id: Id, row: RowStep)
    requires Inv(s) && id in s.withdrawals && !row.DoFail?
    ensures var t := WithRow(s, id, RowNext(s.withdrawals[id], row, s.events));
      Inv(t) && AllAdvance(s.withdrawals, t.withdrawals)
  {
    RowStepKeeps(s.withdrawals[id], row, s.events);
    OnlyExecutorGivesUp(s.withdrawals[id], row, s.events);
    WriteKeepsInv(s, id, RowNext(s.withdrawals[id], row, s.events));
  }

  lemma CreateKeepsInv(s: State, id: Id, y: Withdrawal)
    requires Inv(s) && id !in s.withdrawals && Valid(y)
    requires y.custody == Submitted && y.accounting == PendingReservation
    ensures var t := WithRow(s, id, y); Inv(t) && AllAdvance(s.withdrawals, t.withdrawals)
  {
    WriteKeepsUnmovedBooks(s.withdrawals, s.money, id, y);
  }

  predicate Untouched(s: State, id: Id) {
    && (forall r :: r in s.executors ==> s.executors[r].withdrawal != id)
    && (forall i :: 0 <= i < |s.payouts| ==> s.payouts[i].withdrawal != id)
  }

  lemma OpenRequestKeepsInv(s: State, request: Id, id: Id)
    requires Inv(s) && request !in s.executors && Untouched(s, id)
    requires id in s.withdrawals && PastApproval(s.withdrawals[id]) && !GivenUp(s.withdrawals[id])
    requires Committed(s.withdrawals[id])
    ensures Inv(s.(executors := s.executors[request := Executor(id, CheckingAddress)]))
  {
    var more := s.executors[request := Executor(id, CheckingAddress)];
    assert ExecutorsOk(s.withdrawals, more);
    assert AnswersHeld(more, s.payouts);
  }

  lemma StartKeepsInv(s: State, request: Id, id: Id)
    requires Inv(s)
    ensures var t := Next(s, Start(request, id)); Inv(t) && AllAdvance(s.withdrawals, t.withdrawals)
  {
    if request !in s.executors && id in s.withdrawals && StartExecution(s.withdrawals[id]) != s.withdrawals[id] {
      // an approved withdrawal has neither a request nor a payout yet
      assert !PastApproval(s.withdrawals[id]);
      assert Untouched(s, id);
      RowStepKeepsInv(s, id, DoStart);
      var started := WithRow(s, id, StartExecution(s.withdrawals[id]));
      assert Next(s, Start(request, id))
          == started.(executors := s.executors[request := Executor(id, CheckingAddress)]);
      OpenRequestKeepsInv(started, request, id);
    } else {
      assert Next(s, Start(request, id)) == s;
    }
  }

  /** The answer to a payout call goes into the history and to the request that made the call. */
  lemma AnswerKeepsRequests(rows: Rows, executors: map<Id, Executor>, payouts: seq<Payout>, request: Id, answer: Answer)
    requires ExecutorsOk(rows, executors) && PayoutsOk(rows, payouts)
    requires AnswersHeld(executors, payouts) && Unpaid(rows, payouts)
    requires request in executors && executors[request].phase == CallingProvider
    ensures var held := executors[request := executors[request].(phase := Answered(answer))];
      var longer := payouts + [Payout(executors[request].withdrawal, answer)];
      ExecutorsOk(rows, held) && PayoutsOk(rows, longer) && AnswersHeld(held, longer) && Unpaid(rows, longer)
  {
    // a request still calling holds no answer yet, so its withdrawal was not paid for
    assert forall i :: 0 <= i < |payouts| ==> payouts[i].withdrawal != executors[request].withdrawal;
  }

  lemma CallKeepsInv(s: State, request: Id, answer: Answer)
    requires Inv(s)
    ensures Inv(Next(s, CallProvider(request, answer)))
  {
    if request in s.executors && s.executors[request].phase == CallingProvider {
      AnswerKeepsRequests(s.withdrawals, s.executors, s.payouts, request, answer);
    }
  }

  lemma RequestKeepsInv(s: State, step: Step)
    requires Inv(s) && (step.AddressChecked? || step.Drop?)
    ensures Inv(Next(s, step))
  {
    var t := Next(s, step);
    assert ExecutorsOk(t.withdrawals, t.executors);
    assert AnswersHeld(t.executors, t.payouts);
  }

  /** Giving a withdrawal up once its request is closed and no payout of it was accepted. */
  lemma GivingUpKeepsInv(s: State, id: Id)
    requires Inv(s) && id in s.withdrawals
    requires forall r :: r in s.executors ==> s.executors[r].withdrawal != id
    requires forall i :: 0 <= i < |s.payouts| && s.payouts[i].withdrawal == id ==> s.payouts[i].answer == InvalidAddress
    ensures var t := WithRow(s, id, FailForRelease(s.withdrawals[id]));
      Inv(t) && AllAdvance(s.withdrawals, t.withdrawals)
  {
    var x, y := s.withdrawals[id], FailForRelease(s.withdrawals[id]);
    var rows := s.withdrawals[id := y];
    RowStepKeeps(x, DoFail, s.events);
    WriteKeepsUnmovedBooks(s.withdrawals, s.money, id, y);
    WriteKeepsJournal(s.withdrawals, s.journal, id, y);
    assert ExecutorsOk(rows, s.executors);
    assert PayoutsOk(rows, s.payouts);
    assert Unpaid(rows, s.payouts);
  }

  /** The request that gives a withdrawal up either never called the provider or was refused by it. */
  lemma ConclusionKnowsPayouts(s: State, request: Id)
    requires Inv(s) && request in s.executors && Conclusion(s.executors[request].phase) == Some(DoFail)
    ensures var id := s.executors[request].withdrawal;
      forall i :: 0 <= i < |s.payouts| && s.payouts[i].withdrawal == id ==> s.payouts[i].answer == InvalidAddress
  {
  }

  lemma FinishKeepsInv(s: State, request: Id)
    requires Inv(s)
    ensures var t := Next(s, Finish(request)); Inv(t) && AllAdvance(s.withdrawals, t.withdrawals)
  {
    if request in s.executors && Conclusion(s.executors[request].phase) != None {
      var id, row := s.executors[request].withdrawal, Conclusion(s.executors[request].phase).value;
      assert id in s.withdrawals;
      var fewer := s.(executors := s.executors - {request});
      assert fewer == Next(s, Drop(request));
      RequestKeepsInv(s, Drop(request));
      assert Next(s, Finish(request)) == WithRow(fewer, id, RowNext(s.withdrawals[id], row, s.events));
      if row.DoFail? {
        ConclusionKnowsPayouts(s, request);
        GivingUpKeepsInv(fewer, id);
      } else {
        RowStepKeepsInv(fewer, id, row);
      }
    } else {
      assert Next(s, Finish(request)) == s;
    }
  }

  /** Core's money steps, under their guards, are ordinary changes that keep the books. */
  lemma ReserveIsOrdinary(x: Withdrawal)
    requires Valid(x) && x.accounting == Reserving
    ensures OrdinaryChange(x, Reserve(x)) && BookedChange(x, Reserve(x), -Atoms(x), Atoms(x))
  {
  }

  lemma ReleaseIsOrdinary(x: Withdrawal)
    requires Valid(x) && x.accounting == Releasing && (x.operation == OpSubmitted || x.operation == OpProcessing)
    ensures OrdinaryChange(x, ReleaseFunds(x)) && BookedChange(x, ReleaseFunds(x), Atoms(x), -Atoms(x))
  {
  }

  lemma RejectLinkedIsOrdinary(x: Withdrawal)
    requires Valid(x) && x.operation == OpSubmitted
    ensures OrdinaryChange(x, RejectTransfer(x)) && BookedChange(x, RejectTransfer(x), Atoms(x), -Atoms(x))
  {
  }

  lemma ReserveKeepsInv(s: State, id: Id)
    requires Inv(s) && id in s.withdrawals
    ensures var t := ReserveStep(s, id); Inv(t) && AllAdvance(s.withdrawals, t.withdrawals)
  {
    var x := s.withdrawals[id];
    if ReserveGuard(s, x) {
      ReserveIsOrdinary(x);
      MoveKeepsInv(s, id, Reserve(x), -Atoms(x), Atoms(x));
    }
  }

  lemma ReleaseKeepsInv(s: State, id: Id)
    requires Inv(s) && id in s.withdrawals
    ensures var t := ReleaseStep(s, id); Inv(t) && AllAdvance(s.withdrawals, t.withdrawals)
  {
    var x := s.withdrawals[id];
    if ReleaseGuard(s, x) {
      assert Valid(x);
      assert x.operation != NoOperation;
      ReleaseIsOrdinary(x);
      assert Balanced(s.withdrawals, s.money, x.wallet);
      MoveKeepsInv(s, id, ReleaseFunds(x), Atoms(x), -Atoms(x));
    }
  }

  lemma SettleCompletes(x: Withdrawal)
    requires Valid(x) && x.operation == OpProcessing
    ensures x.accounting == Settling ==> Completes(x, Settle(x))
    ensures Completes(x, ExecuteTransfer(x))
  {
  }

  lemma SettleKeepsInv(s: State, id: Id)
    requires Inv(s) && id in s.withdrawals
    ensures var t := SettleStep(s, id); Inv(t) && AllAdvance(s.withdrawals, t.withdrawals)
  {
    var x := s.withdrawals[id];
    if SettleGuard(s, x) {
      SettleCompletes(x);
      CompletionKeepsInv(s, id, Settle(x));
    }
  }

  lemma RejectLinkedKeepsInv(s: State, id: Id)
    requires Inv(s) && id in s.withdrawals
    ensures var t := RejectLinkedStep(s, id); Inv(t) && AllAdvance(s.withdrawals, t.withdrawals)
  {
    var x := s.withdrawals[id];
    if x.operation == OpSubmitted {
      RejectLinkedIsOrdinary(x);
      assert Balanced(s.withdrawals, s.money, x.wallet);
      MoveKeepsInv(s, id, RejectTransfer(x), Atoms(x), -Atoms(x));
    }
  }

  lemma ExecuteLinkedKeepsInv(s: State, id: Id)
    requires Inv(s) && id in s.withdrawals
    ensures var t := ExecuteLinkedStep(s, id); Inv(t) && AllAdvance(s.withdrawals, t.withdrawals)
  {
    var x := s.withdrawals[id];
    if x.operation == OpProcessing {
      SettleCompletes(x);
      CompletionKeepsInv(s, id, ExecuteTransfer(x));
    }
  }

  /** A purse rewritten without touching what is frozen. */
  predicate SameFrozen(p: Purse, q: Purse) {
    && q.account.frozen == p.account.frozen && q.cryptoWallet.frozen == p.cryptoWallet.frozen
    && q.account.available - q.cryptoWallet.available - q.adjusted
       == p.account.available - p.cryptoWallet.available - p.adjusted
    && q.credited - q.spent - q.cryptoWallet.available == p.credited - p.spent - p.cryptoWallet.available
    && (p.cryptoWallet.available >= 0 ==> q.cryptoWallet.available >= 0)
    && (p.adjusted >= 0 ==> q.adjusted >= 0)
  }

  lemma UnfrozenIsSame(p: Purse, atoms: nat)
    ensures SameFrozen(p, Deposited(p, atoms)) && SameFrozen(p, Adjusted(p, atoms))
    ensures BothAvailable(p, atoms) ==> SameFrozen(p, Converted(p, atoms))
  {
  }

  lemma UnfrozenKeepsBooks(rows: Rows, m: Money, wallet: Id, p: Purse)
    requires Books(rows, m) && SameFrozen(PurseOf(m, wallet), p)
    ensures Books(rows, WithPurse(m, wallet, p))
  {
    forall w ensures Balanced(rows, WithPurse(m, wallet, p), w) {
      assert Balanced(rows, m, w);
    }
  }

  lemma FreezeKeepsBooks(rows: Rows, m: Money, hold: Id, wallet: Id, atoms: nat)
    requires Books(rows, m) && hold !in m.holds
    ensures Books(rows, FreezeHold(m, hold, wallet, atoms))
  {
    var after := FreezeHold(m, hold, wallet, atoms);
    forall w ensures Balanced(rows, after, w) {
      assert Balanced(rows, m, w);
      TotalWrite(m.holds, hold, Hold(wallet, atoms, false), HoldOf(w));
    }
  }

  lemma ApproveKeepsBooks(rows: Rows, m: Money, hold: Id)
    requires Books(rows, m) && hold in m.holds
    ensures Books(rows, m.(holds := m.holds[hold := m.holds[hold].(approved := true)]))
  {
    var after := m.(holds := m.holds[hold := m.holds[hold].(approved := true)]);
    forall w ensures Balanced(rows, after, w) {
      assert Balanced(rows, m, w);
      TotalWrite(m.holds, hold, m.holds[hold].(approved := true), HoldOf(w));
    }
  }

  lemma ReturnKeepsBooks(rows: Rows, m: Money, hold: Id)
    requires Books(rows, m) && hold in m.holds
    ensures Books(rows, ReturnHold(m, hold))
  {
    forall w ensures Balanced(rows, ReturnHold(m, hold), w) {
      assert Balanced(rows, m, w);
      TotalRemove(m.holds, hold, HoldOf(w));
    }
  }

  lemma SpendKeepsBooks(rows: Rows, m: Money, hold: Id)
    requires Books(rows, m) && hold in m.holds
    ensures Books(rows, SpendHold(m, hold))
  {
    forall w ensures Balanced(rows, SpendHold(m, hold), w) {
      assert Balanced(rows, m, w);
      TotalRemove(m.holds, hold, HoldOf(w));
    }
  }

  lemma HoldStepKeepsBooks(rows: Rows, m: Money, step: Step)
    requires Books(rows, m) && (step.Freeze? || step.ApproveHold? || step.RejectHold? || step.ExecuteHold?)
    ensures Books(rows, MoneyNext(m, step))
  {
    match step
    case Freeze(hold, wallet, atoms) => if hold !in m.holds { FreezeKeepsBooks(rows, m, hold, wallet, atoms); }
    case ApproveHold(hold) => if hold in m.holds { ApproveKeepsBooks(rows, m, hold); }
    case RejectHold(hold) => if hold in m.holds { ReturnKeepsBooks(rows, m, hold); }
    case ExecuteHold(hold) => if hold in m.holds { SpendKeepsBooks(rows, m, hold); }
  }

  /** Core's other business keeps the books, whatever it does. */
  lemma MoneyKeepsBooks(rows: Rows, m: Money, step: Step)
    requires Books(rows, m)
    ensures Books(rows, MoneyNext(m, step))
  {
    if step.Credit? || step.Convert? || step.AdjustAccount? {
      UnfrozenIsSame(PurseOf(m, step.wallet), step.atoms);
    }
    match step
    case Credit(wallet, atoms) => UnfrozenKeepsBooks(rows, m, wallet, Deposited(PurseOf(m, wallet), atoms));
    case Convert(wallet, atoms) =>
      if BothAvailable(PurseOf(m, wallet), atoms) {
        UnfrozenKeepsBooks(rows, m, wallet, Converted(PurseOf(m, wallet), atoms));
      }
    case AdjustAccount(wallet, atoms) => UnfrozenKeepsBooks(rows, m, wallet, Adjusted(PurseOf(m, wallet), atoms));
    case _ =>
      if step.Freeze? || step.ApproveHold? || step.RejectHold? || step.ExecuteHold? {
        HoldStepKeepsBooks(rows, m, step);
      }
  }

  lemma RowWriteKeepsInv(s: State, step: Step)
    requires Inv(s) && (step.Create? || step.Act? || step.Callback?)
    ensures Inv(Next(s, step)) && AllAdvance(s.withdrawals, Next(s, step).withdrawals)
  {
    match step
    case Create(id, wallet, amount, fee) =>
      if Next(s, step) != s { CreateKeepsInv(s, id, NewWithdrawal(wallet, amount, fee)); }
    case Act(id, row) =>
      if id in s.withdrawals && !row.DoFail? { RowStepKeepsInv(s, id, row); }
    case Callback(id, cid, code, exact) =>
      if id in s.withdrawals { RowStepKeepsInv(s, id, if exact then DoFinal(cid, code) else DoConflict); }
  }

  predicate ByWorker(step: Step) { step.CoreReserve? || step.CoreRelease? || step.CoreSettle? }

  predicate ByHand(step: Step) { step.RejectLinked? || step.ExecuteLinked? }

  /** Core acts on the operation of one withdrawal: its worker, or an administrator by hand. */
  predicate OnOperation(step: Step) { ByWorker(step) || ByHand(step) }

  lemma WorkerKeepsInv(s: State, step: Step)
    requires Inv(s) && ByWorker(step)
    ensures Inv(Next(s, step)) && AllAdvance(s.withdrawals, Next(s, step).withdrawals)
  {
    match step
    case CoreReserve(id) =>
      assert Next(s, step) == if id in s.withdrawals then ReserveStep(s, id) else s;
      if id in s.withdrawals { ReserveKeepsInv(s, id); }
    case CoreRelease(id) =>
      assert Next(s, step) == if id in s.withdrawals then ReleaseStep(s, id) else s;
      if id in s.withdrawals { ReleaseKeepsInv(s, id); }
    case CoreSettle(id) =>
      assert Next(s, step) == if id in s.withdrawals then SettleStep(s, id) else s;
      if id in s.withdrawals { SettleKeepsInv(s, id); }
  }

  lemma ByHandKeepsInv(s: State, step: Step)
    requires Inv(s) && ByHand(step)
    ensures Inv(Next(s, step)) && AllAdvance(s.withdrawals, Next(s, step).withdrawals)
  {
    match step
    case RejectLinked(id) =>
      assert Next(s, step) == if id in s.withdrawals then RejectLinkedStep(s, id) else s;
      if id in s.withdrawals { RejectLinkedKeepsInv(s, id); }
    case ExecuteLinked(id) =>
      assert Next(s, step) == if id in s.withdrawals then ExecuteLinkedStep(s, id) else s;
      if id in s.withdrawals { ExecuteLinkedKeepsInv(s, id); }
  }

  /** Every step of every actor keeps the whole invariant and only advances withdrawals. */
  lemma StepKeepsInv(s: State, step: Step)
    requires Inv(s)
    ensures Inv(Next(s, step)) && AllAdvance(s.withdrawals, Next(s, step).withdrawals)
  {
    if step.Create? || step.Act? || step.Callback? {
      RowWriteKeepsInv(s, step);
    } else if ByWorker(step) {
      WorkerKeepsInv(s, step);
    } else if ByHand(step) {
      ByHandKeepsInv(s, step);
    } else {
      match step
      case Start(request, id) => StartKeepsInv(s, request, id);
      case CallProvider(request, answer) => CallKeepsInv(s, request, answer);
      case Finish(request) => FinishKeepsInv(s, request);
      case AddressChecked(_, _) => RequestKeepsInv(s, step);
      case Drop(_) => RequestKeepsInv(s, step);
      case _ => MoneyKeepsBooks(s.withdrawals, s.money, step);
    }
  }
}
