/**
 Requests of one active customer (and of an administrator acting on the account) in flight at
 the same time. A request loads its session, reads the credential row and commits a batch as
 separate steps, so everything may have changed in between.
 */
module CustomerAuth {
  import opened Common
  import opened CustomerTables

  /** What a request remembers of the credential row it read. */
  datatype Row = Row(version: int, secret: Option<Id>, lastCounter: int)

  datatype Flight =
    /** A session was loaded under `version`; then perhaps the row was read. */
    | Signed(session: Id, version: int, read: Option<Row>)
    /** A sign-in, an administrator's change or a password reset: no session yet. */
    | Anonymous(row: Row, challenge: Option<Id>)

  /** A TOTP secret handed out for enrollment, tied to a credential version. */
  datatype Token = Token(secret: Id, version: int, replacement: bool)

  datatype State = State(tables: Tables, flights: map<Id, Flight>, tokens: set<Token>, acks: seq<Ack>)

  /** `delivered` and `others`: the change counts of the statements not modelled are all right. */
  datatype Action =
    | StepUp(counter: int, delivered: bool)
    | MakeChange(change: Change, now: int, others: bool)
    | StartEnrollment(secret: Id)
    | StartReplacement(secret: Id, counter: int, delivered: bool)
    | OpenChallenge(challenge: Id)
    | PasswordLogin(session: Id)
    | PasskeyLogin(session: Id)
    | TotpLogin(counter: int, now: int, session: Id)
    | RecoveryLogin(now: int, session: Id, codeUsed: bool)
    | AdminPassword(now: int)
    | ResetPassword(now: int, usable: bool)
    | Logout
    | RevokeSession(target: Id)
    | RevokeOthers
    | Drop
  {
    predicate InsertsSession() { PasswordLogin? || PasskeyLogin? || TotpLogin? || RecoveryLogin? }
  }

  datatype Step =
    | Load(request: Id, session: Id)
    | ReadRow(request: Id)
    | BeginLogin(request: Id)
    | ReadChallenge(request: Id, challenge: Id)
    | Commit(request: Id, action: Action)

  function CurrentRow(t: Tables): Row { Row(t.version, t.secret, t.lastCounter) }

  // ---- what a request may still do, given what it read ------------------------------------

  /** verifyTOTPCode against the row that was read. */
  predicate CodeAccepted(row: Row, counter: int) {
    row.secret != None && counter >= 0 && row.lastCounter < counter
  }

  predicate HasRead(flight: Flight) { flight.Signed? && flight.read != None }

  predicate ChangePermitted(s: State, flight: Flight, change: Change) {
    && flight.Signed? && change.counter >= 0
    && match change
       case ChangePassword(counter) => flight.read != None && CodeAccepted(flight.read.value, counter)
       case ChangeEmail(counter) =>
         flight.read != None && CodeAccepted(flight.read.value, counter) && flight.read.value.version == flight.version
       case EnrollTotp(secret, _) =>
         && flight.read != None && flight.read.value.secret == None && flight.read.value.version == flight.version
         && (Token(secret, flight.version, false) in s.tokens || Token(secret, flight.version, true) in s.tokens)
       case ReplaceTotp(secret, _) => Token(secret, flight.version, true) in s.tokens
  }

  /** A password change counts on from the row it read, the others from the session's version. */
  function NewVersion(flight: Flight, change: Change): int
    requires flight.Signed? && (change.ChangePassword? ==> flight.read != None)
  {
    if change.ChangePassword? then flight.read.value.version + 1 else flight.version + 1
  }

  predicate Fresh(s: State, secret: Id) {
    && (forall token :: token in s.tokens ==> token.secret != secret)
    && s.tables.secret != Some(secret)
    && (forall i :: 0 <= i < |s.acks| ==> s.acks[i].secret != secret)
  }

  predicate Permitted(s: State, flight: Flight, action: Action) {
    match action
    case StepUp(counter, _) => HasRead(flight) && CodeAccepted(flight.read.value, counter)
    case MakeChange(change, _, _) => ChangePermitted(s, flight, change)
    case StartEnrollment(secret) =>
      && HasRead(flight) && flight.read.value.secret == None && flight.read.value.version == flight.version
      && Fresh(s, secret)
    case StartReplacement(secret, counter, _) =>
      && HasRead(flight) && CodeAccepted(flight.read.value, counter) && flight.read.value.version == flight.version
      && Fresh(s, secret)
    case OpenChallenge(challenge) =>
      flight.Anonymous? && flight.row.secret != None && challenge !in s.tables.challenges
    case PasswordLogin(session) => flight.Anonymous? && flight.row.secret == None && session !in s.tables.sessions
    case PasskeyLogin(session) => flight.Anonymous? && session !in s.tables.sessions
    case TotpLogin(counter, _, session) =>
      && flight.Anonymous? && flight.challenge != None
      && CodeAccepted(flight.row, counter) && session !in s.tables.sessions
    case RecoveryLogin(_, session, _) =>
      flight.Anonymous? && flight.challenge != None && session !in s.tables.sessions
    case AdminPassword(_) => flight.Anonymous?
    case ResetPassword(_, _) => flight.Anonymous?
    case Logout => flight.Signed?
    case RevokeSession(target) => flight.Signed? && target != flight.session
    case RevokeOthers => flight.Signed?
    case Drop => true
  }

  // ---- effects ----------------------------------------------------------------------------

  function After(t: Tables, flight: Flight, action: Action): Tables
    requires action.MakeChange? ==> flight.Signed? && (action.change.ChangePassword? ==> flight.read != None)
    requires action.StepUp? || action.StartReplacement? ==> HasRead(flight)
    requires action.InsertsSession() || action.OpenChallenge? || action.AdminPassword? || action.ResetPassword? ==>
      flight.Anonymous?
    requires action.TotpLogin? || action.RecoveryLogin? ==> flight.challenge != None
    requires action.Logout? || action.RevokeOthers? ==> flight.Signed?
  {
    match action
    case StepUp(counter, _) => UseCounter(t, flight.read.value.version, counter)
    case MakeChange(change, now, _) =>
      ChangeBatch(t, change, flight.session, flight.version, NewVersion(flight, change), now)
    case StartEnrollment(_) => t
    case StartReplacement(_, counter, _) => UseCounter(t, flight.read.value.version, counter)
    case OpenChallenge(challenge) =>
      t.(challenges := t.challenges[challenge := Challenge(flight.row.version, None)])
    case PasswordLogin(session) =>
      if t.version == flight.row.version && t.secret == None then InsertSession(t, session, flight.row.version) else t
    case PasskeyLogin(session) => InsertSession(t, session, flight.row.version)
    case TotpLogin(counter, now, session) =>
      LoginBatch(t, flight.challenge.value, flight.row.version, counter, now, session)
    case RecoveryLogin(now, session, codeUsed) =>
      RecoveryBatch(t, flight.challenge.value, flight.row.version, codeUsed, now, session)
    case AdminPassword(now) => AdminPasswordBatch(t, flight.row.version, now)
    case ResetPassword(now, usable) => ResetBatch(t, flight.row.version, usable, now)
    case Logout => Revoke(t, flight.session)
    case RevokeSession(target) => Revoke(t, target)
    case RevokeOthers => RevokeAllBut(t, Some(flight.session))
    case Drop => t
  }

  function Revoke(t: Tables, session: Id): Tables {
    if session in t.sessions
    then t.(sessions := t.sessions[session := t.sessions[session].(revoked := true)]) else t
  }

  /** The successful answer this commit gives for a TOTP code, if it gives one. */
  function Answer(t: Tables, flight: Flight, action: Action): Option<Ack> {
    match action
    case StepUp(counter, delivered) =>
      if HasRead(flight) && flight.read.value.secret != None
         && CounterApplies(t, flight.read.value.version, counter) && delivered
      then Some(Ack(flight.read.value.secret.value, counter)) else None
    case StartReplacement(_, counter, delivered) =>
      if HasRead(flight) && flight.read.value.secret != None
         && CounterApplies(t, flight.read.value.version, counter) && delivered
      then Some(Ack(flight.read.value.secret.value, counter)) else None
    case MakeChange(change, _, others) =>
      if flight.Signed? && ChangeAcknowledged(t, change, flight.session, flight.version) && others then
        if change.InstallsSecret() then Some(Ack(change.secret, change.counter))
        else if HasRead(flight) && flight.read.value.secret != None
        then Some(Ack(flight.read.value.secret.value, change.counter))
        else None
      else None
    case TotpLogin(counter, _, _) =>
      if flight.Anonymous? && flight.challenge != None && flight.row.secret != None
         && LoginAcknowledged(t, flight.challenge.value, flight.row.version, counter)
      then Some(Ack(flight.row.secret.value, counter)) else None
    case _ => None
  }

  /** Enrollment tokens handed out by this commit. */
  function Issued(t: Tables, flight: Flight, action: Action): set<Token> {
    match action
    case StartEnrollment(secret) => if flight.Signed? then {Token(secret, flight.version, false)} else {}
    case StartReplacement(secret, _, _) =>
      if Answer(t, flight, action) != None && flight.Signed? then {Token(secret, flight.version, true)} else {}
    case _ => {}
  }

  function Logged(acks: seq<Ack>, answer: Option<Ack>): seq<Ack> {
    if answer == None then acks else acks + [answer.value]
  }

  function Next(s: State, step: Step): State {
    match step
    case Load(request, session) =>
      if request !in s.flights && Loads(s.tables, session)
      then s.(flights := s.flights[request := Signed(session, s.tables.version, None)]) else s
    case ReadRow(request) =>
      if request in s.flights && s.flights[request].Signed?
      then s.(flights := s.flights[request := s.flights[request].(read := Some(CurrentRow(s.tables)))]) else s
    case BeginLogin(request) =>
      if request !in s.flights
      then s.(flights := s.flights[request := Anonymous(CurrentRow(s.tables), None)]) else s
    case ReadChallenge(request, challenge) =>
      if request !in s.flights && challenge in s.tables.challenges
         && s.tables.challenges[challenge] == Challenge(s.tables.version, None)
      then s.(flights := s.flights[request := Anonymous(CurrentRow(s.tables), Some(challenge))]) else s
    case Commit(request, action) =>
      if request in s.flights && Permitted(s, s.flights[request], action)
      then var flight := s.flights[request];
           State(After(s.tables, flight, action), s.flights - {request},
                 s.tokens + Issued(s.tables, flight, action), Logged(s.acks, Answer(s.tables, flight, action)))
      else s
  }

  function Run(s: State, steps: seq<Step>): State {
    if steps == [] then s else Next(Run(s, steps[..|steps| - 1]), steps[|steps| - 1])
  }

  /** An activated customer before any request: no session, no token, no code accepted so far. */
  predicate Initial(s: State) {
    && s.tables.sessions == map[] && s.tables.challenges == map[]
    && s.flights == map[] && s.tokens == {} && s.acks == []
  }

  ghost predicate Reachable(s: State) {
    exists start, steps :: Initial(start) && s == Run(start, steps)
  }

  // ---- inductive invariant ----------------------------------------------------------------

  predicate RowOk(t: Tables, row: Row) {
    row.version <= t.version && (row.version == t.version ==> row.secret == t.secret)
  }

  predicate FlightOk(t: Tables, flight: Flight) {
    match flight
    case Signed(session, version, row) =>
      && session in t.sessions && version <= t.version
      && (row != None ==> version <= row.value.version && RowOk(t, row.value))
    case Anonymous(row, _) => RowOk(t, row)
  }

  predicate FlightsOk(t: Tables, flights: map<Id, Flight>) {
    forall request :: request in flights ==> FlightOk(t, flights[request])
  }

  predicate Unseen(acks: seq<Ack>, secret: Id) {
    forall i :: 0 <= i < |acks| ==> acks[i].secret != secret
  }

  /** A token that could still be used carries a secret that was never in use. */
  predicate TokensOk(t: Tables, tokens: set<Token>, acks: seq<Ack>) {
    && (forall token :: token in tokens ==>
          && token.version <= t.version
          && (token.version == t.version ==> t.secret != Some(token.secret) && Unseen(acks, token.secret)))
  }

  predicate AcksOk(t: Tables, acks: seq<Ack>) {
    && StrictlyIncreasing(acks)
    && (forall i :: 0 <= i < |acks| && t.secret == Some(acks[i].secret) ==> acks[i].counter <= t.lastCounter)
  }

  predicate Inv(s: State) {
    && FlightsOk(s.tables, s.flights)
    && TokensOk(s.tables, s.tokens, s.acks)
    && AcksOk(s.tables, s.acks)
  }

  // ---- preservation -----------------------------------------------------------------------

  /** What no batch undoes: sessions stay on file, versions rise, a secret lasts a version. */
  predicate Grows(t: Tables, u: Tables) {
    && t.version <= u.version <= t.version + 1
    && (u.version == t.version ==> u.secret == t.secret)
    && (u.secret == t.secret ==> t.lastCounter <= u.lastCounter)
    && t.sessions.Keys <= u.sessions.Keys
  }

  predicate Installs(t: Tables, action: Action, flight: Flight) {
    action.MakeChange? && action.change.InstallsSecret() && flight.Signed?
    && ChangeApplies(t, action.change, flight.version)
  }

  lemma CommitGrows(s: State, flight: Flight, action: Action)
    requires Inv(s) && FlightOk(s.tables, flight) && Permitted(s, flight, action)
    ensures Grows(s.tables, After(s.tables, flight, action))
    ensures var t, u := s.tables, After(s.tables, flight, action);
      if Installs(t, action, flight)
      then && u.secret == Some(action.change.secret)
           && u.version == t.version + 1 && u.lastCounter == action.change.counter
           && t.secret != u.secret && Unseen(s.acks, action.change.secret)
      else u.secret == t.secret
  {
    if action.MakeChange? && ChangeApplies(s.tables, action.change, flight.version) {
      assert NewVersion(flight, action.change) == s.tables.version + 1;
    }
  }

  /** A success is answered for the secret on file and the counter it is now at. */
  lemma AnswerIsCurrent(s: State, flight: Flight, action: Action)
    requires Inv(s) && FlightOk(s.tables, flight) && Permitted(s, flight, action)
    requires Answer(s.tables, flight, action) != None
    ensures var t, u, ack := s.tables, After(s.tables, flight, action), Answer(s.tables, flight, action).value;
      && u.secret == Some(ack.secret) && u.lastCounter == ack.counter
      && (Installs(t, action, flight) || (t.secret == u.secret && t.lastCounter < ack.counter))
  {
  }

  lemma GrowthKeepsFlights(t: Tables, u: Tables, flights: map<Id, Flight>)
    requires FlightsOk(t, flights) && Grows(t, u)
    ensures FlightsOk(u, flights)
  {
    forall request | request in flights ensures FlightOk(u, flights[request]) {
      assert FlightOk(t, flights[request]);
    }
  }

  lemma CommitKeepsAcks(s: State, flight: Flight, action: Action)
    requires Inv(s) && FlightOk(s.tables, flight) && Permitted(s, flight, action)
    ensures AcksOk(After(s.tables, flight, action), Logged(s.acks, Answer(s.tables, flight, action)))
  {
    var t, u := s.tables, After(s.tables, flight, action);
    CommitGrows(s, flight, action);
    if Answer(t, flight, action) != None {
      AnswerIsCurrent(s, flight, action);
    }
  }

  lemma CommitKeepsTokens(s: State, flight: Flight, action: Action)
    requires Inv(s) && FlightOk(s.tables, flight) && Permitted(s, flight, action)
    ensures TokensOk(After(s.tables, flight, action), s.tokens + Issued(s.tables, flight, action),
                     Logged(s.acks, Answer(s.tables, flight, action)))
  {
    var t, u := s.tables, After(s.tables, flight, action);
    var acks := Logged(s.acks, Answer(t, flight, action));
    CommitGrows(s, flight, action);
    if Answer(t, flight, action) != None {
      AnswerIsCurrent(s, flight, action);
    }
    forall token | token in s.tokens + Issued(t, flight, action)
      ensures token.version <= u.version
      ensures token.version == u.version ==> u.secret != Some(token.secret) && Unseen(acks, token.secret)
    {
      if token in s.tokens {
        assert token.version <= t.version;
      } else {
        assert Fresh(s, token.secret);
      }
    }
  }

  lemma StepKeepsInv(s: State, step: Step)
    requires Inv(s)
    ensures Inv(Next(s, step)) && Grows(s.tables, Next(s, step).tables)
  {
    var u := Next(s, step);
    if step.Commit? && step.request in s.flights && Permitted(s, s.flights[step.request], step.action) {
      var flight := s.flights[step.request];
      CommitGrows(s, flight, step.action);
      CommitKeepsTokens(s, flight, step.action);
      CommitKeepsAcks(s, flight, step.action);
      GrowthKeepsFlights(s.tables, u.tables, s.flights);
    } else {
      forall request | request in u.flights ensures FlightOk(u.tables, u.flights[request]) {
        assert request in s.flights ==> FlightOk(s.tables, s.flights[request]);
      }
    }
  }

  lemma {:induction false} RunKeepsInv(s: State, steps: seq<Step>)
    requires Inv(s)
    ensures Inv(Run(s, steps)) && s.tables.version <= Run(s, steps).tables.version
  {
    if steps != [] {
      RunKeepsInv(s, steps[..|steps| - 1]);
      StepKeepsInv(Run(s, steps[..|steps| - 1]), steps[|steps| - 1]);
    }
  }

  lemma ReachableInv(s: State)
    requires Reachable(s)
    ensures Inv(s)
  {
    var start, steps :| Initial(start) && s == Run(start, steps);
    RunKeepsInv(start, steps);
  }

  // ---- TOTP counters ----------------------------------------------------------------------

  /**
   Over every interleaving and every endpoint, the time steps acknowledged for one secret
   strictly increase: no code is accepted twice (section 5.2 of RFC 6238).
   */
  lemma AcknowledgedCountersIncrease(s: State)
    requires Reachable(s)
    ensures StrictlyIncreasing(s.acks)
  {
    ReachableInv(s);
  }

  // ---- credential versions ----------------------------------------------------------------

  /** The session on whose behalf a step raises the version: none for a reset or an administrator. */
  function Performer(s: State, step: Step): Option<Id> {
    if step.Commit? && step.request in s.flights && s.flights[step.request].Signed?
    then Some(s.flights[step.request].session) else None
  }

  /** No request holds this session and it cannot be loaded while `version` is below the current one. */
  predicate Ended(s: State, session: Id, version: int) {
    session in s.tables.sessions && version < s.tables.version
    && (s.tables.sessions[session].revoked
        || (s.tables.sessions[session].version <= version && HeldByNobody(s.flights, session)))
  }

  /** Older than the change: on file before it, or inserted later under a version read before it. */
  predicate Older(before: State, now: State, session: Id) {
    session in before.tables.sessions
    || (session in now.tables.sessions && now.tables.sessions[session].born <= before.tables.version)
  }

  ghost predicate OldOnesEnded(before: State, now: State, performer: Option<Id>) {
    forall session :: session in now.tables.sessions && Some(session) != performer && Older(before, now, session)
      ==> Ended(now, session, before.tables.version)
  }

  /** The step that raises the version ends every other session then on file. */
  lemma BumpEndsOthers(s: State, step: Step)
    requires Inv(s) && Next(s, step).tables.version > s.tables.version
    ensures Next(s, step).tables.sessions.Keys == s.tables.sessions.Keys
    ensures OldOnesEnded(s, Next(s, step), Performer(s, step))
  {
    var flight := s.flights[step.request];
    assert step.action.MakeChange? || step.action.AdminPassword? || step.action.ResetPassword?;
  }

  /** A sign-in inserts its session under the version it read. */
  lemma CommitInserts(s: State, flight: Flight, action: Action, session: Id)
    requires FlightOk(s.tables, flight) && Permitted(s, flight, action)
    requires session in After(s.tables, flight, action).sessions && session !in s.tables.sessions
    ensures var row := After(s.tables, flight, action).sessions[session]; row.version == row.born <= s.tables.version
  {
    match action
    case MakeChange(_, _, _) =>
    case TotpLogin(_, _, _) =>
    case RecoveryLogin(_, _, _) =>
    case AdminPassword(_) =>
    case ResetPassword(_, _) =>
    case RevokeOthers =>
    case _ =>
  }

  predicate HeldByNobody(flights: map<Id, Flight>, session: Id) {
    forall request :: request in flights && flights[request].Signed? ==> flights[request].session != session
  }

  lemma UnknownIsHeldByNobody(t: Tables, flights: map<Id, Flight>, session: Id)
    requires FlightsOk(t, flights) && session !in t.sessions
    ensures HeldByNobody(flights, session)
  {
    forall request | request in flights && flights[request].Signed? ensures flights[request].session != session {
      assert FlightOk(t, flights[request]);
    }
  }

  /** An inserted session is new, held by nobody and born under the version read. */
  lemma InsertedSession(s: State, step: Step, session: Id)
    requires Inv(s) && session in Next(s, step).tables.sessions && session !in s.tables.sessions
    ensures var row := Next(s, step).tables.sessions[session]; row.version == row.born <= s.tables.version
    ensures HeldByNobody(Next(s, step).flights, session)
  {
    assert step.Commit? && step.request in s.flights;
    assert FlightOk(s.tables, s.flights[step.request]);
    CommitInserts(s, s.flights[step.request], step.action, session);
    UnknownIsHeldByNobody(s.tables, s.flights, session);
  }

  /** Revocation is final, and only a request that holds a session changes its version. */
  predicate SessionKept(x: Session, y: Session, held: bool) {
    y.born == x.born && (x.revoked ==> y.revoked) && (!held ==> y.version == x.version)
  }

  lemma CommitKeepsSession(s: State, flight: Flight, action: Action, session: Id)
    requires Permitted(s, flight, action) && session in s.tables.sessions
    ensures var u := After(s.tables, flight, action);
      && session in u.sessions
      && SessionKept(s.tables.sessions[session], u.sessions[session], flight.Signed? && flight.session == session)
  {
    match action
    case MakeChange(_, _, _) =>
    case TotpLogin(_, _, _) =>
    case RecoveryLogin(_, _, _) =>
    case AdminPassword(_) =>
    case ResetPassword(_, _) =>
    case RevokeOthers =>
    case _ =>
  }

  lemma StepKeepsSession(s: State, step: Step, session: Id)
    requires session in s.tables.sessions
    ensures var u := Next(s, step).tables;
      && session in u.sessions
      && SessionKept(s.tables.sessions[session], u.sessions[session], Performer(s, step) == Some(session))
  {
    if step.Commit? && step.request in s.flights && Permitted(s, s.flights[step.request], step.action) {
      CommitKeepsSession(s, s.flights[step.request], step.action, session);
    }
  }

  /** Nothing brings an ended session back. */
  lemma EndedStaysEnded(s: State, step: Step, session: Id, version: int)
    requires Inv(s) && Ended(s, session, version)
    ensures Ended(Next(s, step), session, version)
  {
    StepKeepsInv(s, step);
    StepKeepsSession(s, step, session);
  }

  lemma StepKeepsOldOnesEnded(before: State, now: State, performer: Option<Id>, step: Step)
    requires Inv(now) && OldOnesEnded(before, now, performer) && before.tables.version < now.tables.version
    requires before.tables.sessions.Keys <= now.tables.sessions.Keys
    ensures OldOnesEnded(before, Next(now, step), performer)
  {
    var next := Next(now, step);
    StepKeepsInv(now, step);
    forall session | session in next.tables.sessions && Some(session) != performer && Older(before, next, session)
      ensures Ended(next, session, before.tables.version)
    {
      if session in now.tables.sessions {
        StepKeepsSession(now, step, session);
        EndedStaysEnded(now, step, session, before.tables.version);
      } else {
        InsertedSession(now, step, session);
      }
    }
  }

  lemma {:induction false} RunKeepsOldOnesEnded(before: State, now: State, performer: Option<Id>, steps: seq<Step>)
    requires Inv(now) && OldOnesEnded(before, now, performer) && before.tables.version < now.tables.version
    requires before.tables.sessions.Keys <= now.tables.sessions.Keys
    ensures OldOnesEnded(before, Run(now, steps), performer)
    ensures before.tables.sessions.Keys <= Run(now, steps).tables.sessions.Keys
  {
    if steps != [] {
      var earlier := steps[..|steps| - 1];
      RunKeepsOldOnesEnded(before, now, performer, earlier);
      RunKeepsInv(now, earlier);
      StepKeepsInv(Run(now, earlier), steps[|steps| - 1]);
      StepKeepsOldOnesEnded(before, Run(now, earlier), performer, steps[|steps| - 1]);
    }
  }

  predicate BornUnderKnownVersion(t: Tables) {
    forall session :: session in t.sessions ==> t.sessions[session].born <= t.version
  }

  lemma StepKeepsBirths(s: State, step: Step)
    requires Inv(s) && BornUnderKnownVersion(s.tables)
    ensures BornUnderKnownVersion(Next(s, step).tables)
  {
    var u := Next(s, step).tables;
    StepKeepsInv(s, step);
    forall session | session in u.sessions ensures u.sessions[session].born <= u.version {
      if session in s.tables.sessions {
        StepKeepsSession(s, step, session);
      } else {
        InsertedSession(s, step, session);
      }
    }
  }

  lemma {:induction false} RunKeepsBirths(start: State, steps: seq<Step>)
    requires Initial(start)
    ensures Inv(Run(start, steps)) && BornUnderKnownVersion(Run(start, steps).tables)
  {
    RunKeepsInv(start, steps);
    if steps != [] {
      RunKeepsInv(start, steps[..|steps| - 1]);
      RunKeepsBirths(start, steps[..|steps| - 1]);
      StepKeepsBirths(Run(start, steps[..|steps| - 1]), steps[|steps| - 1]);
    }
  }

  /**
   Once a change of credentials has raised the version, no older session ever loads again
   except the one that made the change, although sign-ins still in flight insert sessions
   under the version they read before it. A reset or an administrator's change spares none.
   */
  lemma OnlyThePerformerSurvives(s: State, step: Step, steps: seq<Step>, session: Id)
    requires Reachable(s) && Next(s, step).tables.version > s.tables.version
    requires var later := Run(Next(s, step), steps); session in later.tables.sessions && Older(s, later, session)
    requires Some(session) != Performer(s, step)
    ensures !Loads(Run(Next(s, step), steps).tables, session)
  {
    var start, earlier :| Initial(start) && s == Run(start, earlier);
    RunKeepsBirths(start, earlier);
    BumpEndsOthers(s, step);
    StepKeepsInv(s, step);
    RunKeepsOldOnesEnded(s, Next(s, step), Performer(s, step), steps);
    assert Ended(Run(Next(s, step), steps), session, s.tables.version);
  }
}
