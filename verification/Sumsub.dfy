/** What the identity provider reports, and the status derived from it. */
module Sumsub {

  import opened Common

  datatype ReviewAnswer = Green | Red | NoAnswer

  /** `Init` also stands for a missing review status. */
  datatype ReviewPhase = Init | Completed | InProgress

  datatype Review = Review(phase: ReviewPhase, answer: ReviewAnswer, retry: bool)

  datatype Document = Passport | OtherDocument

  datatype StepType = Identity | Selfie | ProofOfResidence | OtherStep(name: int)

  datatype ProviderStep = ProviderStep(answer: ReviewAnswer, document: Document, images: seq<ReviewAnswer>)

  type RequiredSteps = map<StepType, ProviderStep>

  datatype Status =
    | Initializing | AwaitingApplicant | ProviderReviewing | ReadyForAdminReview
    | ResubmissionRequired | ProviderRejected | ProviderError

  /** A step row as stored. */
  datatype StoredStep = StoredStep(answer: ReviewAnswer, document: Document)

  const Missing := ProviderStep(NoAnswer, OtherDocument, [])

  function Lookup(steps: RequiredSteps, kind: StepType): ProviderStep {
    if kind in steps then steps[kind] else Missing
  }

  /** A step counts as green when it was answered so, or all of its images were. */
  predicate EffectivelyGreen(step: ProviderStep) {
    step.answer == Green || (step.images != [] && forall i :: 0 <= i < |step.images| ==> step.images[i] == Green)
  }

  function Effective(step: ProviderStep): ProviderStep {
    if EffectivelyGreen(step) then step.(answer := Green) else step
  }

  function EffectiveSteps(steps: RequiredSteps): RequiredSteps {
    map kind | kind in steps :: Effective(steps[kind])
  }

  /** Rewrites the map entry by entry, in whatever order the keys come. */
  method EffectiveRequiredSteps(steps: RequiredSteps) returns (result: RequiredSteps)
    ensures result == EffectiveSteps(steps)
  {
    result := steps;
    var todo := steps.Keys;
    while todo != {}
      invariant todo <= steps.Keys == result.Keys
      invariant forall kind :: kind in todo ==> result[kind] == steps[kind]
      invariant forall kind :: kind in steps && kind !in todo ==> result[kind] == Effective(steps[kind])
      decreases todo
    {
      var kind :| kind in todo;
      todo := todo - {kind};
      var step := result[kind];
      if step.answer != Green && |step.images| != 0 {
        var allGreen := true;
        var i := 0;
        while i < |step.images|
          invariant 0 <= i <= |step.images|
          invariant allGreen <==> forall j :: 0 <= j < i ==> step.images[j] == Green
        {
          if step.images[i] != Green { allGreen := false; break; }
          i := i + 1;
        }
        if allGreen {
          result := result[kind := step.(answer := Green)];
        }
      }
    }
  }

  function ProviderStatus(review: Review, steps: RequiredSteps): Status {
    if review.phase == Completed && review.answer == Red then
      if review.retry then ResubmissionRequired else ProviderRejected
    else if review.phase == Completed && review.answer == Green
      && Lookup(steps, Identity).answer == Green && Lookup(steps, Identity).document == Passport
      && Lookup(steps, Selfie).answer == Green && Lookup(steps, ProofOfResidence).answer == Green
    then ReadyForAdminReview
    else if review.phase == Init then AwaitingApplicant
    else ProviderReviewing
  }

  /** The step check of the approval query: three rows, all of them green, the identity a passport. */
  predicate StepsReady(stored: map<StepType, StoredStep>) {
    && |stored| == 3
    && Identity in stored && stored[Identity] == StoredStep(Green, Passport)
    && Selfie in stored && stored[Selfie].answer == Green
    && ProofOfResidence in stored && stored[ProofOfResidence].answer == Green
  }

  function StoredOf(step: ProviderStep): StoredStep { StoredStep(step.answer, step.document) }

  /** The three step rows written from one fetch. */
  function StoredSteps(steps: RequiredSteps): map<StepType, StoredStep> {
    map[Identity := StoredOf(Lookup(steps, Identity)),
        Selfie := StoredOf(Lookup(steps, Selfie)),
        ProofOfResidence := StoredOf(Lookup(steps, ProofOfResidence))]
  }

  lemma ThreeRows(steps: RequiredSteps)
    ensures |StoredSteps(steps)| == 3
  {
    assert StoredSteps(steps).Keys == {Identity, Selfie, ProofOfResidence};
    assert |StoredSteps(steps)| == |StoredSteps(steps).Keys|;
  }

  /** A fetch is stored as ready exactly when the review is green and its stored steps pass the query. */
  lemma ReadyIffStepsReady(review: Review, steps: RequiredSteps)
    ensures ProviderStatus(review, steps) == ReadyForAdminReview
       <==> review.phase == Completed && review.answer == Green && StepsReady(StoredSteps(steps))
  {
    ThreeRows(steps);
  }

  /** What the other answers of the provider turn a customer's file into. */
  lemma WhatIsAskedNext(review: Review, steps: RequiredSteps)
    ensures ProviderStatus(review, steps) == ResubmissionRequired <==> review == Review(Completed, Red, true)
    ensures ProviderStatus(review, steps) == ProviderRejected <==> review == Review(Completed, Red, false)
    ensures ProviderStatus(review, steps) == AwaitingApplicant <==> review.phase == Init
    ensures ProviderStatus(review, steps) == ProviderReviewing <==>
      || review.phase == InProgress
      || (review.phase == Completed && review.answer == NoAnswer)
      || (review.phase == Completed && review.answer == Green && !StepsReady(StoredSteps(steps)))
  {
    ThreeRows(steps);
  }

  /** The provider reports this step, and either its answer or each of its images, of which there are some, is green. */
  predicate AnsweredGreen(raw: RequiredSteps, kind: StepType) {
    && kind in raw
    && (raw[kind].answer == Green
        || (|raw[kind].images| > 0 && forall i :: 0 <= i < |raw[kind].images| ==> raw[kind].images[i] == Green))
  }

  /** Seen from the provider's raw answers: what makes a customer's file ready. */
  lemma ReadyFromRawAnswers(review: Review, raw: RequiredSteps)
    ensures ProviderStatus(review, EffectiveSteps(raw)) == ReadyForAdminReview
       <==> && review.phase == Completed && review.answer == Green
            && AnsweredGreen(raw, Identity) && raw[Identity].document == Passport
            && AnsweredGreen(raw, Selfie) && AnsweredGreen(raw, ProofOfResidence)
  {
    forall kind ensures Lookup(EffectiveSteps(raw), kind) == Effective(Lookup(raw, kind)) {
    }
  }

  /** What is stored of one step: its document, and green exactly if it was answered so. */
  lemma StoredFromRawAnswers(raw: RequiredSteps, kind: StepType)
    requires kind in {Identity, Selfie, ProofOfResidence}
    ensures var stored := StoredSteps(EffectiveSteps(raw));
      && kind in stored
      && stored[kind] == if kind !in raw then StoredStep(NoAnswer, OtherDocument)
                         else if AnsweredGreen(raw, kind) then StoredStep(Green, raw[kind].document)
                         else StoredStep(raw[kind].answer, raw[kind].document)
  {
  }

  /** A row of any fourth step blocks the approval. */
  lemma FourthStepBlocks(stored: map<StepType, StoredStep>, name: int)
    requires OtherStep(name) in stored
    ensures !StepsReady(stored)
  {
    if StepsReady(stored) {
      assert {Identity, Selfie, ProofOfResidence, OtherStep(name)} <= stored.Keys;
      assert |{Identity, Selfie, ProofOfResidence, OtherStep(name)}| == 4;
      SmallerSet({Identity, Selfie, ProofOfResidence, OtherStep(name)}, stored.Keys);
    }
  }

  lemma {:induction false} SmallerSet<T>(a: set<T>, b: set<T>)
    requires a <= b
    ensures |a| <= |b|
  {
    assert b == a + (b - a);
  }
}
