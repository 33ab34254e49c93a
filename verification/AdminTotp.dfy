/**
 Sign-in codes of one administrator. Completing a setup installs a new secret and resets the
 counter; unlike the customer endpoints, the sign-in statement compares only the counter.
 */
module AdminTotp {

  import opened Common

  /** `enrollment` is the token of a setup whose first code is still to be confirmed. */
  datatype Row = Row(secret: Option<Id>, lastCounter: int, enrollment: Option<Id>)

  datatype State = State(row: Row, flights: map<Id, Row>, acks: seq<Ack>)

  datatype Step =
    | CompleteSetup(secret: Id, token: Id)
    | ReadRow(flight: Id)
    | Commit(flight: Id, counter: int)

  predicate Fresh(s: State, secret: Id, token: Id) {
    && s.row.secret != Some(secret) && s.row.enrollment != Some(token)
    && (forall flight :: flight in s.flights ==>
          s.flights[flight].secret != Some(secret) && s.flights[flight].enrollment != Some(token))
    && (forall i :: 0 <= i < |s.acks| ==> s.acks[i].secret != secret)
  }

  predicate Accepts(read: Row, counter: int) {
    read.secret != None && counter >= 0 && read.lastCounter < counter
  }

  /** The enrollment statement names its token; the sign-in statement names the counter alone. */
  predicate Applies(row: Row, read: Row, counter: int) {
    && row.lastCounter < counter
    && (read.enrollment != None ==> row.enrollment == read.enrollment)
  }

  function Committed(s: State, read: Row, counter: int): State {
    if Accepts(read, counter) && Applies(s.row, read, counter)
    then s.(row := s.row.(lastCounter := counter,
                          enrollment := if read.enrollment != None then None else s.row.enrollment),
            acks := s.acks + [Ack(read.secret.value, counter)])
    else s
  }

  class AdminStore {
    var row: Row

    constructor (row: Row)
      ensures this.row == row
    {
      this.row := row;
    }

    /**
     The update after a code was accepted against the row read earlier. It is acknowledged exactly
     if it raises the counter, and then no code of this or an earlier time step is acknowledged
     again while the counter stands; an enrollment token works once.
     */
    method SpendCode(read: Row, counter: int) returns (acknowledged: bool)
      requires Accepts(read, counter)
      modifies this
      ensures acknowledged <==> row.lastCounter > old(row).lastCounter
      ensures row.secret == old(row).secret
      ensures row.lastCounter == if acknowledged then counter else old(row).lastCounter
      ensures !acknowledged ==> row == old(row)
      ensures acknowledged ==> forall again, step :: step <= counter ==> !Applies(row, again, step)
      ensures acknowledged && read.enrollment != None ==>
        old(row).enrollment == read.enrollment && forall step :: !Applies(row, read, step)
      ensures acknowledged <==> Applies(old(row), read, counter)
      ensures forall s: State :: s.row == old(row) ==>
        Committed(s, read, counter).row == row
        && |Committed(s, read, counter).acks| == |s.acks| + (if acknowledged then 1 else 0)
    {
      if row.lastCounter >= counter { return false; }
      if read.enrollment != None {
        if row.enrollment != read.enrollment { return false; }
        row := row.(enrollment := None);
      }
      row := row.(lastCounter := counter);
      acknowledged := true;
    }
  }

  function Next(s: State, step: Step): State {
    match step
    case CompleteSetup(secret, token) =>
      if Fresh(s, secret, token) then s.(row := Row(Some(secret), -1, Some(token))) else s
    case ReadRow(flight) =>
      if flight in s.flights then s else s.(flights := s.flights[flight := s.row])
    case Commit(flight, counter) =>
      if flight in s.flights
      then Committed(s, s.flights[flight], counter).(flights := s.flights - {flight}) else s
  }

  function Run(s: State, steps: seq<Step>): State {
    if steps == [] then s else Next(Run(s, steps[..|steps| - 1]), steps[|steps| - 1])
  }

  // ---- what the endpoints are for -----------------------------------------------------------

  /** A request with nothing between its read and its commit. */
  function Served(s: State, flight: Id, counter: int): State {
    Next(Next(s, ReadRow(flight)), Commit(flight, counter))
  }

  /** A code is acknowledged exactly if it is for a time step not used yet; it is then used, and an enrollment over. */
  lemma CodeServed(s: State, flight: Id, counter: int)
    requires flight !in s.flights
    ensures var t := Served(s, flight, counter);
      && t.flights == s.flights
      && if s.row.secret != None && 0 <= counter && s.row.lastCounter < counter
         then t.row == Row(s.row.secret, counter, None) && t.acks == s.acks + [Ack(s.row.secret.value, counter)]
         else t.row == s.row && t.acks == s.acks
  {
  }

  /** A time step used up when the request read the row is refused, whatever happened since. */
  lemma UsedCodeIsRefused(s: State, flight: Id, counter: int)
    requires flight in s.flights && counter <= s.flights[flight].lastCounter
    ensures Next(s, Commit(flight, counter)) == s.(flights := s.flights - {flight})
  {
  }

  lemma RunNext(s: State, steps: seq<Step>, step: Step)
    ensures Run(s, steps + [step]) == Next(Run(s, steps), step)
  {
    assert (steps + [step])[..|steps|] == steps;
  }

  lemma RunServed(s: State, steps: seq<Step>, flight: Id, counter: int)
    ensures Run(s, steps + [ReadRow(flight)] + [Commit(flight, counter)]) == Served(Run(s, steps), flight, counter)
  {
    RunNext(s, steps, ReadRow(flight));
    RunNext(s, steps + [ReadRow(flight)], Commit(flight, counter));
  }

  /**
   From a blank account: a setup, the code that confirms it, a later code, and then that code again
   and an earlier one, which are refused.
   */
  lemma SetupAndSignIns(secret: Id, token: Id, first: nat, later: nat) returns (steps: seq<Step>)
    requires first < later
    ensures Run(Blank, steps).row == Row(Some(secret), later, None)
    ensures Run(Blank, steps).acks == [Ack(secret, first), Ack(secret, later)]
    ensures |steps| == 9 && steps[0] == CompleteSetup(secret, token)
    ensures Run(Blank, steps[..1]).row == Row(Some(secret), -1, Some(token))
    ensures steps[2] == Commit(1, first) && steps[4] == Commit(1, later)
    ensures steps[6] == Commit(1, later) && steps[8] == Commit(1, first)
  {
    var setup := [CompleteSetup(secret, token)];
    RunNext(Blank, [], CompleteSetup(secret, token));
    assert [] + setup == setup;
    RunServed(Blank, setup, 1, first);
    CodeServed(Run(Blank, setup), 1, first);
    var confirmed := setup + [ReadRow(1)] + [Commit(1, first)];
    RunServed(Blank, confirmed, 1, later);
    CodeServed(Run(Blank, confirmed), 1, later);
    var signedIn := confirmed + [ReadRow(1)] + [Commit(1, later)];
    RunServed(Blank, signedIn, 1, later);
    CodeServed(Run(Blank, signedIn), 1, later);
    var again := signedIn + [ReadRow(1)] + [Commit(1, later)];
    RunServed(Blank, again, 1, first);
    CodeServed(Run(Blank, again), 1, first);
    steps := again + [ReadRow(1)] + [Commit(1, first)];
    assert steps[..1] == setup;
  }

  // ---- what holds whatever happens in between -------------------------------------------------

  predicate AcksOk(s: State) {
    && StrictlyIncreasing(s.acks)
    && (forall i :: 0 <= i < |s.acks| && s.row.secret == Some(s.acks[i].secret) ==>
          s.acks[i].counter <= s.row.lastCounter)
  }

  /** A setup's token stands for its secret. */
  predicate ReadOk(s: State, read: Row) {
    read.enrollment != None && read.enrollment == s.row.enrollment ==> read.secret == s.row.secret
  }

  predicate Inv(s: State) {
    AcksOk(s) && forall flight :: flight in s.flights ==> ReadOk(s, s.flights[flight])
  }

  /** The secret on file is still the one the code was checked against. */
  predicate SecretUnchanged(s: State, read: Row) { s.row.secret == read.secret }

  ghost predicate AlwaysStrict(row: Row, read: Row, counter: int) {
    forall s :: Inv(s) && s.row == row && ReadOk(s, read) ==> StrictlyIncreasing(Committed(s, read, counter).acks)
  }

  lemma CommitKeepsAcks(s: State, read: Row, counter: int)
    requires Inv(s) && ReadOk(s, read)
    requires SecretUnchanged(s, read) || read.enrollment != None
    ensures AcksOk(Committed(s, read, counter))
  {
  }

  /**
   A code whose commit goes through is spent for good, in every state, exactly when it is an
   enrollment or the secret on file is still the one it was checked against.
   */
  lemma StrictIffSecretUnchanged(row: Row, read: Row, counter: int)
    requires Accepts(read, counter) && Applies(row, read, counter)
    ensures AlwaysStrict(row, read, counter) <==> (row.secret == read.secret || read.enrollment != None)
  {
    if row.secret == read.secret || read.enrollment != None {
      forall s | Inv(s) && s.row == row && ReadOk(s, read)
        ensures StrictlyIncreasing(Committed(s, read, counter).acks)
      {
        CommitKeepsAcks(s, read, counter);
      }
    } else {
      var spent := State(row, map[], [Ack(read.secret.value, counter)]);
      assert Inv(spent) && ReadOk(spent, read);
      var acks := Committed(spent, read, counter).acks;
      assert acks[0] == acks[1] == Ack(read.secret.value, counter);
      assert !StrictlyIncreasing(acks);
    }
  }

  lemma StepKeepsInv(s: State, step: Step)
    requires Inv(s)
    requires step.Commit? && step.flight in s.flights ==>
      SecretUnchanged(s, s.flights[step.flight]) || s.flights[step.flight].enrollment != None
    ensures Inv(Next(s, step))
  {
    if step.Commit? && step.flight in s.flights {
      CommitKeepsAcks(s, s.flights[step.flight], step.counter);
    }
  }

  ghost predicate NoStaleSignIn(s: State, steps: seq<Step>) {
    forall i :: 0 <= i < |steps| && steps[i].Commit? && steps[i].flight in Run(s, steps[..i]).flights ==>
      var read := Run(s, steps[..i]).flights[steps[i].flight];
      SecretUnchanged(Run(s, steps[..i]), read) || read.enrollment != None
  }

  const Blank := State(Row(None, -1, None), map[], [])

  /** Unless a credential reset overtakes a sign-in, acknowledged counters strictly increase. */
  lemma {:induction false} CountersIncreaseWithoutStaleSignIns(steps: seq<Step>)
    requires NoStaleSignIn(Blank, steps)
    ensures Inv(Run(Blank, steps)) && StrictlyIncreasing(Run(Blank, steps).acks)
  {
    if steps != [] {
      var earlier := steps[..|steps| - 1];
      forall i | 0 <= i < |earlier| && earlier[i].Commit? && earlier[i].flight in Run(Blank, earlier[..i]).flights
        ensures var read := Run(Blank, earlier[..i]).flights[earlier[i].flight];
          SecretUnchanged(Run(Blank, earlier[..i]), read) || read.enrollment != None
      {
        assert earlier[..i] == steps[..i] && earlier[i] == steps[i];
      }
      CountersIncreaseWithoutStaleSignIns(earlier);
      StepKeepsInv(Run(Blank, earlier), steps[|steps| - 1]);
    }
  }

  /**
   Two sign-ins read the row, one spends the code, a reset installs a new secret with a blank
   counter, and the other sign-in spends the same code of the old secret again.
   */
  lemma ResetLetsACodePassTwice(secret: Id, other: Id, token: Id, first: Id, second: Id, counter: int)
    requires secret != other && first != second && counter > 0
    ensures var signedIn := State(Row(Some(secret), 0, None), map[], []);
      var s1 := Next(Next(signedIn, ReadRow(first)), ReadRow(second));
      var s2 := Next(Next(Next(s1, Commit(first, counter)), CompleteSetup(other, token)), Commit(second, counter));
      Inv(signedIn) && s2.acks == [Ack(secret, counter), Ack(secret, counter)]
  {
    var signedIn := State(Row(Some(secret), 0, None), map[], []);
    var s1 := Next(Next(signedIn, ReadRow(first)), ReadRow(second));
    var spent := Next(s1, Commit(first, counter));
    assert spent.acks == [Ack(secret, counter)];
    assert Fresh(spent, other, token);
    var reset := Next(spent, CompleteSetup(other, token));
    assert second in reset.flights && reset.flights[second] == Row(Some(secret), 0, None);
  }
}
