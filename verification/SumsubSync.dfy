/**
 The synchronisation queue of one verification: webhooks and administrators' resyncs queue the
 job, one worker claims it, fetches from the provider in two calls and stores what it got, and
 the approval handler reads the result. Every step happens at its own instant.
 */
module SumsubSync {
  import opened Common
  import opened Sumsub

  const MAX_ATTEMPTS := 8

  datatype JobStatus = Pending | Processing | Done | Failed | Dead

  datatype Job = Job(status: JobStatus, attempts: int)

  /** The worker between two of its steps; `attempts` is what its claim returned. */
  datatype Worker =
    | Idle
    | Claimed(attempts: int, claimedAt: int)
    | Reviewed(attempts: int, claimedAt: int, review: Review, reviewAt: int)
    | Fetched(attempts: int, claimedAt: int, review: Review, reviewAt: int, steps: RequiredSteps, stepsAt: int)

  datatype State = State(
    applicant: Option<Id>, status: Status, steps: map<StepType, StoredStep>, job: Option<Job>,
    worker: Worker,
    now: int,        // instants so far
    noticeAt: int,   // history: when the last webhook or resync was accepted
    reviewAt: int,   // history: when the stored review was fetched
    stepsAt: int)    // history: when the stored steps were fetched

  datatype Step =
    | Webhook(applicant: Id, isNew: bool)
    | Resync
    | IssueToken(applicant: Id)
    | MarkProviderError
    | Claim(due: bool, stale: bool)
    | FetchReview(review: Review)
    | FetchSteps(raw: RequiredSteps)
    | Finish
    | Fail(misconfigured: bool)
    | Crash

  predicate Matches(s: State, applicant: Id) { s.applicant == None || s.applicant == Some(applicant) }

  predicate Claimable(job: Job, due: bool, stale: bool) {
    job.attempts < MAX_ATTEMPTS
    && (((job.status == Pending || job.status == Failed) && due) || (job.status == Processing && stale))
  }

  /** The finishing batch stores the fetch whatever happened to the job meanwhile. */
  function Finished(s: State): State
    requires s.worker.Fetched?
  {
    var steps := EffectiveSteps(s.worker.steps);
    s.(status := ProviderStatus(s.worker.review, steps), steps := StoredSteps(steps),
       job := if s.job != None && s.job.value.status == Processing then Some(s.job.value.(status := Done)) else s.job,
       worker := Idle, reviewAt := s.worker.reviewAt, stepsAt := s.worker.stepsAt)
  }

  function FailedJob(job: Job, attempts: int): Job {
    job.(status := if attempts >= MAX_ATTEMPTS then Dead else Failed)
  }

  function Effect(s: State, step: Step): State {
    match step
    case Webhook(applicant, isNew) =>
      if Matches(s, applicant) && isNew
      then s.(applicant := Some(applicant),
              status := if s.status == ReadyForAdminReview then ProviderReviewing else s.status,
              job := Some(Job(Pending, 0)), noticeAt := s.now)
      else s
    case Resync => s.(job := Some(Job(Pending, 0)), noticeAt := s.now)
    case IssueToken(applicant) =>
      if Matches(s, applicant)
      then s.(applicant := Some(applicant),
              status := if s.status in {Initializing, ProviderError} then AwaitingApplicant else s.status)
      else s
    case MarkProviderError =>
      if s.status in {Initializing, AwaitingApplicant, ProviderError} then s.(status := ProviderError) else s
    case Claim(due, stale) =>
      if s.worker == Idle && s.job != None && Claimable(s.job.value, due, stale)
      then s.(job := Some(Job(Processing, s.job.value.attempts + 1)),
              worker := Claimed(s.job.value.attempts + 1, s.now))
      else s
    case FetchReview(review) =>
      if s.worker.Claimed? && s.applicant != None
      then s.(worker := Reviewed(s.worker.attempts, s.worker.claimedAt, review, s.now)) else s
    case FetchSteps(raw) =>
      if s.worker.Reviewed?
      then s.(worker := Fetched(s.worker.attempts, s.worker.claimedAt, s.worker.review, s.worker.reviewAt, raw, s.now))
      else s
    case Finish => if s.worker.Fetched? then Finished(s) else s
    case Fail(misconfigured) =>
      if s.worker == Idle then s
      else s.(job := if s.job == None then None
                     else Some(FailedJob(s.job.value, if misconfigured then MAX_ATTEMPTS else s.worker.attempts)),
              worker := Idle)
    case Crash => s.(worker := Idle)
  }

  function Next(s: State, step: Step): State { Effect(s, step).(now := s.now + 1) }

  function Run(s: State, steps: seq<Step>): State {
    if steps == [] then s else Next(Run(s, steps[..|steps| - 1]), steps[|steps| - 1])
  }

  /** A verification as it is inserted: nothing fetched, nothing queued. */
  const Created := State(None, Initializing, map[], None, Idle, 1, 0, -1, -1)

  // ---- inductive invariant ----------------------------------------------------------------

  /** What the worker holds was fetched after its claim. */
  predicate WorkerOk(w: Worker, now: int) {
    match w
    case Idle => true
    case Claimed(_, at) => at < now
    case Reviewed(_, at, _, reviewAt) => at < reviewAt < now
    case Fetched(_, at, _, reviewAt, _, stepsAt) => at < reviewAt < stepsAt < now
  }

  predicate Inv(s: State) {
    && s.noticeAt < s.now && s.reviewAt < s.now && s.stepsAt < s.now && WorkerOk(s.worker, s.now)
    && (s.worker != Idle ==> s.job != None && s.job.value.status in {Pending, Processing})
    && (s.worker != Idle && s.job.value.status == Processing ==> s.noticeAt < s.worker.claimedAt)
    && (s.job != None && s.job.value.status == Done ==> s.noticeAt < s.reviewAt < s.stepsAt)
    && (s.status == ReadyForAdminReview ==> StepsReady(s.steps))
  }

  lemma StepKeepsInv(s: State, step: Step)
    requires Inv(s)
    ensures Inv(Next(s, step))
  {
    if step.Finish? && s.worker.Fetched? {
      ReadyIffStepsReady(s.worker.review, EffectiveSteps(s.worker.steps));
    }
  }

  lemma {:induction false} RunKeepsInv(s: State, steps: seq<Step>)
    requires Inv(s)
    ensures Inv(Run(s, steps))
  {
    if steps != [] {
      RunKeepsInv(s, steps[..|steps| - 1]);
      StepKeepsInv(Run(s, steps[..|steps| - 1]), steps[|steps| - 1]);
    }
  }

  // ---- approval ---------------------------------------------------------------------------

  datatype Block = Open | ConfigurationMismatch | VerificationNotReady

  /** sumsubApprovalBlockCode; `verified` says that the customer has a verification at all. */
  function ApprovalBlock(individual: bool, verified: bool, configured: bool, status: Status,
                         job: Option<Job>, stepsReady: bool): Block
  {
    if !individual || !verified then Open
    else if !configured then ConfigurationMismatch
    else if status != ReadyForAdminReview || job == None || job.value.status != Done || !stepsReady
    then VerificationNotReady
    else Open
  }

  /**
   At the instant the approval handler reads, an individual's approval gets through only on a ready
   status and three green steps that the worker fetched, in that order, after the last webhook or
   resync was accepted.
   */
  lemma ApprovalSeesFreshData(steps: seq<Step>, configured: bool)
    ensures var s := Run(Created, steps);
      ApprovalBlock(true, true, configured, s.status, s.job, StepsReady(s.steps)) == Open ==>
        && configured && s.status == ReadyForAdminReview && StepsReady(s.steps)
        && s.noticeAt < s.reviewAt < s.stepsAt
  {
    RunKeepsInv(Created, steps);
  }

  /** A completed job always means data newer than every notice, whatever its status says. */
  lemma CompletedMeansFresh(steps: seq<Step>)
    ensures var s := Run(Created, steps);
      s.job != None && s.job.value.status == Done ==> s.noticeAt < s.reviewAt < s.stepsAt
  {
    RunKeepsInv(Created, steps);
  }

  /** The query's own check of the steps never blocks what status and job let through. */
  lemma StepCheckAgreesWithStatus(steps: seq<Step>)
    ensures var s := Run(Created, steps);
      ApprovalBlock(true, true, true, s.status, s.job, StepsReady(s.steps))
      == ApprovalBlock(true, true, true, s.status, s.job, true)
  {
    RunKeepsInv(Created, steps);
  }

  // ---- progress ---------------------------------------------------------------------------

  /** The job will be picked up again once it is due or its lock has gone stale. */
  predicate Waiting(s: State) {
    s.job != None && Claimable(s.job.value, true, true)
  }

  /**
   A notice accepted while the worker is busy re-queues the job with a clean count. Its
   failure handling afterwards writes the job without looking: the notice is still waiting
   exactly when the claim was an earlier attempt than the last one and the configuration fits.
   */
  lemma NoticeSurvivesFailureIff(s: State, misconfigured: bool)
    requires Inv(s) && s.worker != Idle && s.job == Some(Job(Pending, 0))
    ensures Waiting(Next(s, Fail(misconfigured))) <==> s.worker.attempts < MAX_ATTEMPTS && !misconfigured
  {
  }

  /** The failing case does occur: a notice during the eighth attempt is lost if that attempt fails. */
  lemma NoticeCanBeLost(s: State, applicant: Id)
    requires Inv(s) && s.worker == Claimed(MAX_ATTEMPTS, s.now - 1) && Matches(s, applicant)
    ensures var queued := Next(s, Webhook(applicant, true));
      Waiting(queued) && !Waiting(Next(queued, Fail(false)))
  {
  }

  /** Every other step leaves an accepted notice waiting or serves it. */
  lemma NoticeWaitsOrIsServed(s: State, step: Step)
    requires Inv(s) && s.job != None && s.job.value.status == Pending && s.job.value.attempts < MAX_ATTEMPTS - 1
    requires !step.Fail?
    ensures Waiting(Next(s, step))
  {
  }

  /** A waiting job of a reachable provider is served: four steps complete it with current data. */
  lemma WaitingJobCanComplete(s: State, review: Review, raw: RequiredSteps)
    requires Inv(s) && s.worker == Idle && Waiting(s) && s.applicant != None
    ensures var t := Next(Next(Next(Next(s, Claim(true, true)), FetchReview(review)), FetchSteps(raw)), Finish);
      && t.job != None && t.job.value.status == Done && t.noticeAt < t.reviewAt
      && t.status == ProviderStatus(review, EffectiveSteps(raw)) && t.steps == StoredSteps(EffectiveSteps(raw))
  {
  }

  // ---- what the steps are for ---------------------------------------------------------------

  /** Everything but the queue, what was noticed last and the status is as it was. */
  predicate SameFile(s: State, t: State) {
    t.steps == s.steps && t.worker == s.worker && t.reviewAt == s.reviewAt && t.stepsAt == s.stepsAt
    && t.now == s.now + 1
  }

  /**
   A new webhook for the file's applicant, or the first applicant it hears of, queues the job afresh
   and withdraws readiness; a repeated one or a stranger's changes nothing.
   */
  lemma WebhookServed(s: State, applicant: Id, isNew: bool)
    ensures var t := Next(s, Webhook(applicant, isNew));
      && SameFile(s, t)
      && if isNew && s.applicant in {None, Some(applicant)}
         then && t.applicant == Some(applicant) && t.job == Some(Job(Pending, 0)) && t.noticeAt == s.now
              && t.status == match s.status case ReadyForAdminReview => ProviderReviewing case other => other
         else (t.applicant, t.job, t.noticeAt, t.status) == (s.applicant, s.job, s.noticeAt, s.status)
  {
  }

  /** A resync queues the job afresh. */
  lemma ResyncServed(s: State)
    ensures Next(s, Resync) == s.(job := Some(Job(Pending, 0)), noticeAt := s.now, now := s.now + 1)
  {
  }

  /** Before the provider has answered, a token makes the file wait for its applicant and an error is noted on it. */
  lemma EarlyStatuses(s: State, applicant: Id)
    ensures Created.status == Initializing && Created.applicant == None && Created.job == None
    ensures var t := Next(s, IssueToken(applicant));
      && SameFile(s, t) && t.job == s.job && t.noticeAt == s.noticeAt
      && if s.applicant in {None, Some(applicant)}
         then && t.applicant == Some(applicant)
              && t.status == match s.status
                             case Initializing => AwaitingApplicant
                             case ProviderError => AwaitingApplicant
                             case other => other
         else t.applicant == s.applicant && t.status == s.status
    ensures var t := Next(s, MarkProviderError);
      && SameFile(s, t) && (t.applicant, t.job, t.noticeAt) == (s.applicant, s.job, s.noticeAt)
      && t.status == match s.status
                     case Initializing => ProviderError
                     case AwaitingApplicant => ProviderError
                     case other => other
  {
  }

  /** A job may be claimed up to eight times: when it is due, or when an earlier claim has gone stale. */
  lemma ClaimServed(s: State, due: bool, stale: bool)
    ensures var t := Next(s, Claim(due, stale));
      if && s.worker == Idle && s.job != None && s.job.value.attempts <= 7
         && match s.job.value.status
            case Pending => due
            case Failed => due
            case Processing => stale
            case _ => false
      then && t.job == Some(Job(Processing, s.job.value.attempts + 1))
           && t.worker == Claimed(s.job.value.attempts + 1, s.now)
      else t.job == s.job && t.worker == s.worker
  {
  }

  /** The worker fetches the review, then the steps, of a file whose applicant is known. */
  lemma FetchesServed(s: State, review: Review, raw: RequiredSteps)
    ensures Next(s, FetchReview(review)).worker ==
      match s.worker
      case Claimed(attempts, at) => if s.applicant == None then s.worker else Reviewed(attempts, at, review, s.now)
      case _ => s.worker
    ensures Next(s, FetchSteps(raw)).worker ==
      match s.worker
      case Reviewed(attempts, at, review, reviewAt) => Fetched(attempts, at, review, reviewAt, raw, s.now)
      case _ => s.worker
    ensures Next(s, Crash).worker == Idle && Next(s, Crash).job == s.job
  {
  }

  function Rounds(n: nat): seq<Step> {
    if n == 0 then [] else Rounds(n - 1) + [Claim(true, false)] + [Fail(false)]
  }

  lemma RunNext(s: State, steps: seq<Step>, step: Step)
    ensures Run(s, steps + [step]) == Next(Run(s, steps), step)
  {
    assert (steps + [step])[..|steps|] == steps;
  }

  /** A queued job whose provider keeps failing is tried eight times, then it is dead. */
  lemma {:induction false} TriedEightTimes(s: State, n: nat)
    requires s.worker == Idle && s.job == Some(Job(Pending, 0)) && n <= 8
    ensures var t := Run(s, Rounds(n));
      && t.worker == Idle && t.noticeAt == s.noticeAt && t.status == s.status
      && t.job == Some(Job(if n == 0 then Pending else if n == 8 then Dead else Failed, n))
      && (Waiting(t) <==> n < 8)
  {
    if n > 0 {
      TriedEightTimes(s, n - 1);
      RunNext(s, Rounds(n - 1), Claim(true, false));
      RunNext(s, Rounds(n - 1) + [Claim(true, false)], Fail(false));
      ClaimServed(Run(s, Rounds(n - 1)), true, false);
    }
  }

  /** A misconfigured file is not tried again at all. */
  lemma MisconfiguredIsDead(s: State)
    requires s.worker != Idle && s.job != None
    ensures Next(s, Fail(true)).job == Some(s.job.value.(status := Dead)) && Next(s, Fail(true)).worker == Idle
  {
  }

  /** A company's file and a customer without one are not blocked; a wrong configuration blocks before all else. */
  lemma WhatBlocksApproval(individual: bool, verified: bool, configured: bool, status: Status, job: Option<Job>,
      stepsReady: bool)
    ensures ApprovalBlock(individual, verified, configured, status, job, stepsReady) == Open <==>
      !individual || !verified
      || (configured && status == ReadyForAdminReview && job.Some? && job.value.status == Done && stepsReady)
    ensures ApprovalBlock(individual, verified, configured, status, job, stepsReady) == ConfigurationMismatch <==>
      individual && verified && !configured
  {
  }

  // ---- the finishing batch ----------------------------------------------------------------

  class SumsubStore {
    var status: Status
    var steps: map<StepType, StoredStep>
    var job: Job

    constructor (status: Status, steps: map<StepType, StoredStep>, job: Job)
      ensures this.status == status && this.steps == steps && this.job == job
    {
      this.status, this.steps, this.job := status, steps, job;
    }

    /** One upsert per step type, then the job if it is still being processed. */
    method Store(review: Review, raw: RequiredSteps)
      requires steps.Keys <= {Identity, Selfie, ProofOfResidence}
      modifies this
      ensures status == ProviderStatus(review, EffectiveSteps(raw))
      ensures steps == StoredSteps(EffectiveSteps(raw))
      ensures job == if old(job).status == Processing then old(job).(status := Done) else old(job)
    {
      var effective := EffectiveRequiredSteps(raw);
      status := ProviderStatus(review, effective);
      var kinds := [Identity, Selfie, ProofOfResidence];
      var i := 0;
      while i < |kinds|
        invariant 0 <= i <= |kinds|
        invariant job == old(job) && status == ProviderStatus(review, effective)
        invariant steps.Keys <= {Identity, Selfie, ProofOfResidence}
        invariant forall j :: 0 <= j < i ==>
          kinds[j] in steps && steps[kinds[j]] == StoredOf(Lookup(effective, kinds[j]))
      {
        steps := steps[kinds[i] := StoredOf(Lookup(effective, kinds[i]))];
        i := i + 1;
      }
      assert kinds[0] in steps && kinds[1] in steps && kinds[2] in steps;
      assert steps == StoredSteps(effective);
      if job.status == Processing { job := job.(status := Done); }
    }
  }
}
