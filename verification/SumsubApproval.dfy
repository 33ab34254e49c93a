/**
 Approving an individual's application: the handler reads the verification in one transaction and
 approves the customer in a later one, whose statements do not mention the verification any more.
 */
module SumsubApproval {
  import opened Common
  import opened Sumsub
  import Sync = SumsubSync

  /** What the handler read: when, and when the worker had fetched it. */
  datatype Read = Read(at: int, reviewAt: int, stepsAt: int)

  /** A committed approval: what it rests on, and when the last notice before the commit was accepted. */
  datatype Approval = Approval(read: Read, noticeAt: int)

  datatype State = State(sync: Sync.State, seen: map<Id, Read>, approval: Option<Approval>)

  datatype Step =
    | Synchronise(step: Sync.Step)
    | ReadApproval(request: Id, configured: bool)
    | CommitApproval(request: Id)

  predicate Approvable(sync: Sync.State, configured: bool) {
    Sync.ApprovalBlock(true, true, configured, sync.status, sync.job, StepsReady(sync.steps)) == Sync.Open
  }

  function Tick(sync: Sync.State): Sync.State { sync.(now := sync.now + 1) }

  function Next(s: State, step: Step): State {
    match step
    case Synchronise(step) => s.(sync := Sync.Next(s.sync, step))
    case ReadApproval(request, configured) =>
      if request !in s.seen && Approvable(s.sync, configured)
      then s.(sync := Tick(s.sync), seen := s.seen[request := Read(s.sync.now, s.sync.reviewAt, s.sync.stepsAt)])
      else s
    case CommitApproval(request) =>
      if request in s.seen
      then State(Tick(s.sync), s.seen - {request},
                 if s.approval == None then Some(Approval(s.seen[request], s.sync.noticeAt)) else s.approval)
      else s
  }

  function Run(s: State, steps: seq<Step>): State {
    if steps == [] then s else Next(Run(s, steps[..|steps| - 1]), steps[|steps| - 1])
  }

  const Created := State(Sync.Created, map[], None)

  /** The approval rests on data the worker fetched after every notice accepted before the commit. */
  predicate Fresh(a: Approval) { a.noticeAt < a.read.reviewAt < a.read.stepsAt }

  /** A webhook or resync was accepted after the handler had read and before it committed. */
  predicate Overtaken(a: Approval) { a.read.at < a.noticeAt }

  /** A read saw current data; notices since then came after it. */
  predicate ReadOk(read: Read, noticeAt: int, now: int) {
    && read.reviewAt < read.stepsAt < read.at < now
    && (noticeAt < read.reviewAt || read.at < noticeAt)
  }

  predicate Inv(s: State) {
    && Sync.Inv(s.sync)
    && (forall r :: r in s.seen ==> ReadOk(s.seen[r], s.sync.noticeAt, s.sync.now))
    && (s.approval.Some? ==> ReadOk(s.approval.value.read, s.approval.value.noticeAt, s.sync.now))
  }

  lemma SynchroniseKeepsReads(sync: Sync.State, step: Sync.Step, read: Read)
    requires Sync.Inv(sync) && ReadOk(read, sync.noticeAt, sync.now)
    ensures ReadOk(read, Sync.Next(sync, step).noticeAt, Sync.Next(sync, step).now)
  {
  }

  lemma StepKeepsInv(s: State, step: Step)
    requires Inv(s)
    ensures Inv(Next(s, step))
  {
    match step
    case Synchronise(step) =>
      Sync.StepKeepsInv(s.sync, step);
      forall r | r in s.seen
        ensures ReadOk(s.seen[r], Sync.Next(s.sync, step).noticeAt, Sync.Next(s.sync, step).now)
      {
        SynchroniseKeepsReads(s.sync, step, s.seen[r]);
      }
    case _ =>
  }

  lemma {:induction false} RunKeepsInv(s: State, steps: seq<Step>)
    requires Inv(s)
    ensures Inv(Run(s, steps))
  {
    if steps != [] {
      RunKeepsInv(s, steps[..|steps| - 1]);
      StepKeepsInv(Run(s, steps[..|steps| - 1]), steps[|steps| - 1]);
    }
  }

  /**
   Over every interleaving of the queue and any number of approval requests, the approval that was
   committed rests on fresh data exactly if no notice was accepted between its read and its commit.
   */
  lemma CommittedApprovalIsFreshIff(steps: seq<Step>)
    ensures var s := Run(Created, steps);
      s.approval.Some? ==> (Fresh(s.approval.value) <==> !Overtaken(s.approval.value))
  {
    RunKeepsInv(Created, steps);
  }

  // ---- a run in which a notice does come in between ---------------------------------------------

  const GreenReview := Review(Completed, Green, false)

  const GreenSteps := map[
    Identity := ProviderStep(Green, Passport, []),
    Selfie := ProviderStep(Green, OtherDocument, []),
    ProofOfResidence := ProviderStep(Green, OtherDocument, [])]

  lemma Queued()
    ensures var s := Sync.Next(Sync.Created, Sync.Webhook(1, true));
      Sync.Inv(s) && s.worker == Sync.Idle && Sync.Waiting(s) && s.applicant == Some(1)
  {
  }

  lemma Fetched(s: Sync.State)
    requires Sync.Inv(s) && s.worker == Sync.Idle && Sync.Waiting(s) && s.applicant == Some(1)
    ensures var reviewed := Sync.Next(Sync.Next(s, Sync.Claim(true, true)), Sync.FetchReview(GreenReview));
      var t := Sync.Next(Sync.Next(reviewed, Sync.FetchSteps(GreenSteps)), Sync.Finish);
      Approvable(t, true) && t.applicant == Some(1)
  {
    Sync.WaitingJobCanComplete(s, GreenReview, GreenSteps);
    ReadyFromRawAnswers(GreenReview, GreenSteps);
    ReadyIffStepsReady(GreenReview, EffectiveSteps(GreenSteps));
  }

  lemma RunNext(steps: seq<Step>, step: Step)
    ensures Run(Created, steps + [step]) == Next(Run(Created, steps), step)
  {
    assert (steps + [step])[..|steps|] == steps;
  }

  lemma OvertakenRun(s: State)
    requires Approvable(s.sync, true) && s.sync.applicant == Some(1) && s.seen == map[] && s.approval == None
    ensures var t := Next(Next(Next(s, ReadApproval(1, true)), Synchronise(Sync.Webhook(1, true))), CommitApproval(1));
      t.approval.Some? && Overtaken(t.approval.value)
  {
  }

  /** The provider reports a change after the handler has read: the approval is committed all the same. */
  lemma StaleApprovalIsCommitted() returns (steps: seq<Step>)
    ensures var s := Run(Created, steps); s.approval.Some? && !Fresh(s.approval.value)
  {
    var fetch := [Synchronise(Sync.Webhook(1, true)), Synchronise(Sync.Claim(true, true)),
                  Synchronise(Sync.FetchReview(GreenReview)), Synchronise(Sync.FetchSteps(GreenSteps)),
                  Synchronise(Sync.Finish)];
    var approve := [ReadApproval(1, true), Synchronise(Sync.Webhook(1, true)), CommitApproval(1)];
    RunNext([], fetch[0]);
    RunNext([] + [fetch[0]], fetch[1]);
    var claimed := [] + [fetch[0]] + [fetch[1]];
    RunNext(claimed, fetch[2]);
    RunNext(claimed + [fetch[2]], fetch[3]);
    RunNext(claimed + [fetch[2]] + [fetch[3]], fetch[4]);
    Queued();
    Fetched(Sync.Next(Sync.Created, Sync.Webhook(1, true)));
    var fetched := claimed + [fetch[2]] + [fetch[3]] + [fetch[4]];
    RunNext(fetched, approve[0]);
    RunNext(fetched + [approve[0]], approve[1]);
    RunNext(fetched + [approve[0]] + [approve[1]], approve[2]);
    OvertakenRun(Run(Created, fetched));
    steps := fetched + [approve[0]] + [approve[1]] + [approve[2]];
    CommittedApprovalIsFreshIff(steps);
  }
}
