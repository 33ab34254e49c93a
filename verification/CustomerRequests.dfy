/**
 What each request is for: served without interference it does exactly that, and otherwise it is
 refused and changes nothing. Together with the laws over all interleavings this says both what
 the endpoints may never do and what they do.
 */
module CustomerRequests {
  import opened Common
  import opened CustomerTables
  import opened CustomerAuth

  /** A signed-in request from the load of its session to its commit, with nothing in between. */
  function ServedSigned(s: State, request: Id, session: Id, action: Action): State {
    Next(Next(Next(s, Load(request, session)), ReadRow(request)), Commit(request, action))
  }

  function ServedAnonymous(s: State, request: Id, action: Action): State {
    Next(Next(s, BeginLogin(request)), Commit(request, action))
  }

  function ServedChallenge(s: State, request: Id, challenge: Id, action: Action): State {
    Next(Next(s, ReadChallenge(request, challenge)), Commit(request, action))
  }

  /** A code for a time step the customer has not used yet. */
  predicate GoodCode(t: Tables, counter: int) { t.secret != None && counter >= 0 && t.lastCounter < counter }

  /** The request is over and left the customer's account alone. */
  predicate NothingChanged(s: State, t: State) {
    t.tables == s.tables && t.acks == s.acks && t.tokens == s.tokens
  }

  ghost predicate OnlyLoads(t: Tables, session: Id) {
    forall other :: Loads(t, other) <==> other == session
  }

  ghost predicate NoneLoads(t: Tables) {
    forall session :: !Loads(t, session)
  }

  /** Challenges of the sign-ins under way end with the credentials they were opened for. */
  predicate AllConsumed(t: Tables) {
    forall challenge :: challenge in t.challenges ==> t.challenges[challenge].consumed != None
  }

  // ---- step-ups and changes ---------------------------------------------------------------

  /** A step-up is answered exactly for a good code, and spends it. */
  lemma StepUpServed(s: State, request: Id, session: Id, counter: int)
    requires request !in s.flights && Loads(s.tables, session)
    ensures var t := ServedSigned(s, request, session, StepUp(counter, true));
      if GoodCode(s.tables, counter)
      then && t.acks == s.acks + [Ack(s.tables.secret.value, counter)]
           && t.tables == s.tables.(lastCounter := counter) && t.tokens == s.tokens
      else NothingChanged(s, t)
  {
  }

  /** A change of password or e-mail is made exactly for a good code. */
  lemma ChangeServed(s: State, request: Id, session: Id, change: Change, now: int)
    requires request !in s.flights && Loads(s.tables, session) && (change.ChangePassword? || change.ChangeEmail?)
    ensures var t := ServedSigned(s, request, session, MakeChange(change, now, true));
      if GoodCode(s.tables, change.counter)
      then && t.acks == s.acks + [Ack(s.tables.secret.value, change.counter)]
           && t.tables.version == s.tables.version + 1 && t.tables.secret == s.tables.secret
           && t.tables.lastCounter == change.counter
           && OnlyLoads(t.tables, session) && AllConsumed(t.tables)
      else NothingChanged(s, t)
  {
    var t := ServedSigned(s, request, session, MakeChange(change, now, true));
    if GoodCode(s.tables, change.counter) {
      forall other ensures Loads(t.tables, other) <==> other == session {
        AcknowledgedChangeLeavesOneSession(s.tables, change, session, now, other);
      }
    }
  }

  /** The second request of an enrollment or replacement installs the secret the first one handed out. */
  ghost predicate Installed(s: State, t: State, session: Id, secret: Id, counter: int) {
    && t.acks == s.acks + [Ack(secret, counter)]
    && t.tables.version == s.tables.version + 1 && t.tables.secret == Some(secret) && t.tables.lastCounter == counter
    && OnlyLoads(t.tables, session) && AllConsumed(t.tables)
  }

  lemma EnrollmentStarted(s: State, request: Id, session: Id, secret: Id)
    requires request !in s.flights && Loads(s.tables, session) && Fresh(s, secret)
    ensures var t := ServedSigned(s, request, session, StartEnrollment(secret));
      if s.tables.secret == None
      then && t.tables == s.tables && t.acks == s.acks && t.flights == s.flights
           && t.tokens == s.tokens + {Token(secret, s.tables.version, false)}
      else NothingChanged(s, t)
  {
  }

  /** Either kind of token serves an enrollment. */
  lemma EnrollmentServed(s: State, request: Id, session: Id, secret: Id, replacement: bool, counter: int, now: int)
    requires request !in s.flights && Loads(s.tables, session) && counter >= 0
    requires s.tables.secret == None && Token(secret, s.tables.version, replacement) in s.tokens
    ensures Installed(s, ServedSigned(s, request, session, MakeChange(EnrollTotp(secret, counter), now, true)),
                      session, secret, counter)
  {
    var t := ServedSigned(s, request, session, MakeChange(EnrollTotp(secret, counter), now, true));
    forall other ensures Loads(t.tables, other) <==> other == session {
      AcknowledgedChangeLeavesOneSession(s.tables, EnrollTotp(secret, counter), session, now, other);
    }
  }

  /** A customer without TOTP enrolls with two requests; a session of theirs survives, no other does. */
  lemma EnrollmentCompletes(s: State, request: Id, session: Id, secret: Id, counter: int, now: int)
    requires request !in s.flights && Loads(s.tables, session) && Fresh(s, secret) && counter >= 0
    requires s.tables.secret == None
    ensures var started := ServedSigned(s, request, session, StartEnrollment(secret));
      Installed(s, ServedSigned(started, request, session, MakeChange(EnrollTotp(secret, counter), now, true)),
                session, secret, counter)
  {
    EnrollmentStarted(s, request, session, secret);
    var started := ServedSigned(s, request, session, StartEnrollment(secret));
    EnrollmentServed(started, request, session, secret, false, counter, now);
  }

  lemma ReplacementStarted(s: State, request: Id, session: Id, secret: Id, counter: int)
    requires request !in s.flights && Loads(s.tables, session) && Fresh(s, secret)
    ensures var t := ServedSigned(s, request, session, StartReplacement(secret, counter, true));
      if GoodCode(s.tables, counter)
      then && t.acks == s.acks + [Ack(s.tables.secret.value, counter)] && t.flights == s.flights
           && t.tables == s.tables.(lastCounter := counter)
           && t.tokens == s.tokens + {Token(secret, s.tables.version, true)}
      else NothingChanged(s, t)
  {
  }

  lemma ReplacementServed(s: State, request: Id, session: Id, secret: Id, counter: int, now: int)
    requires request !in s.flights && Loads(s.tables, session) && counter >= 0
    requires Token(secret, s.tables.version, true) in s.tokens
    ensures Installed(s, ServedSigned(s, request, session, MakeChange(ReplaceTotp(secret, counter), now, true)),
                      session, secret, counter)
  {
    var t := ServedSigned(s, request, session, MakeChange(ReplaceTotp(secret, counter), now, true));
    forall other ensures Loads(t.tables, other) <==> other == session {
      AcknowledgedChangeLeavesOneSession(s.tables, ReplaceTotp(secret, counter), session, now, other);
    }
  }

  /** A good code of the old secret and a code of the new one replace it. */
  lemma ReplacementCompletes(s: State, request: Id, session: Id, secret: Id, old_: int, new_: int, now: int)
    requires request !in s.flights && Loads(s.tables, session) && Fresh(s, secret) && new_ >= 0
    requires GoodCode(s.tables, old_)
    ensures var started := ServedSigned(s, request, session, StartReplacement(secret, old_, true));
      && started.acks == s.acks + [Ack(s.tables.secret.value, old_)]
      && Installed(started, ServedSigned(started, request, session, MakeChange(ReplaceTotp(secret, new_), now, true)),
                   session, secret, new_)
  {
    ReplacementStarted(s, request, session, secret, old_);
    var started := ServedSigned(s, request, session, StartReplacement(secret, old_, true));
    ReplacementServed(started, request, session, secret, new_, now);
  }

  /** A token of an earlier credential version installs nothing. */
  lemma OldTokenIsRefused(s: State, request: Id, session: Id, change: Change, now: int)
    requires request !in s.flights && Loads(s.tables, session) && change.InstallsSecret()
    requires forall token :: token in s.tokens && token.secret == change.secret ==> token.version != s.tables.version
    ensures NothingChanged(s, ServedSigned(s, request, session, MakeChange(change, now, true)))
  {
  }

  // ---- refusals, whatever happened between read and commit ------------------------------------

  /** A code for a time step that was used up when the request read the row is refused in every state. */
  lemma UsedCodeIsRefused(s: State, request: Id, action: Action)
    requires request in s.flights && s.flights[request].Signed? && s.flights[request].read != None
    requires match action
             case StepUp(counter, _) => counter <= s.flights[request].read.value.lastCounter
             case StartReplacement(_, counter, _) => counter <= s.flights[request].read.value.lastCounter
             case MakeChange(change, _, _) =>
               !change.InstallsSecret() && change.counter <= s.flights[request].read.value.lastCounter
             case _ => false
    ensures NothingChanged(s, Next(s, Commit(request, action)))
  {
  }

  /** The same of a sign-in, and of a customer without a second factor. */
  lemma UsedCodeDoesNotSignIn(s: State, request: Id, counter: int, now: int, session: Id)
    requires request in s.flights && s.flights[request].Anonymous?
    requires s.flights[request].row.secret == None || counter <= s.flights[request].row.lastCounter || counter < 0
    ensures NothingChanged(s, Next(s, Commit(request, TotpLogin(counter, now, session))))
  {
  }

  /**
   A change of e-mail, an enrollment or the start of either whose row was read under another version
   than its session was loaded under touches nothing: no session ends, no challenge is consumed, no
   secret is handed out.
   */
  lemma OvertakenChangeIsRefused(s: State, request: Id, action: Action)
    requires request in s.flights && s.flights[request].Signed?
    requires action.StartEnrollment? || action.StartReplacement?
             || (action.MakeChange? && (action.change.ChangeEmail? || action.change.EnrollTotp?))
    requires s.flights[request].read != None ==> s.flights[request].read.value.version != s.flights[request].version
    ensures NothingChanged(s, Next(s, Commit(request, action)))
  {
  }

  /** A password alone signs nobody in who has a second factor, or got one or a new password meanwhile. */
  lemma PasswordAloneIsRefused(s: State, request: Id, session: Id)
    requires request in s.flights && s.flights[request].Anonymous?
    requires s.flights[request].row.secret != None || s.tables.secret != None
             || s.tables.version != s.flights[request].row.version
    ensures NothingChanged(s, Next(s, Commit(request, PasswordLogin(session))))
  {
  }

  /** Without the statement that what the code pays for took effect, no success is answered and no secret handed out. */
  lemma UndeliveredIsNotAnswered(s: State, request: Id, action: Action)
    requires match action
             case StepUp(_, delivered) => !delivered
             case StartReplacement(_, _, delivered) => !delivered
             case MakeChange(_, _, others) => !others
             case _ => false
    ensures Next(s, Commit(request, action)).acks == s.acks
    ensures Next(s, Commit(request, action)).tokens == s.tokens
  {
  }

  /** Nor for a step-up whose row was replaced, or whose time step was used, between read and commit. */
  lemma OvertakenStepUpIsNotAnswered(s: State, request: Id, action: Action)
    requires request in s.flights && s.flights[request].Signed? && s.flights[request].read != None
    requires action.StepUp? || action.StartReplacement?
    requires s.tables.version != s.flights[request].read.value.version || action.counter <= s.tables.lastCounter
    ensures NothingChanged(s, Next(s, Commit(request, action)))
  {
  }

  /** Ids of rows already on file are not given to new ones, and a request is not begun twice. */
  lemma TakenIdsAreRefused(s: State, request: Id, id: Id, other: Id, counter: int, now: int, used: bool)
    ensures id in s.tables.sessions ==>
      && NothingChanged(s, Next(s, Commit(request, PasswordLogin(id))))
      && NothingChanged(s, Next(s, Commit(request, PasskeyLogin(id))))
      && NothingChanged(s, Next(s, Commit(request, TotpLogin(counter, now, id))))
      && NothingChanged(s, Next(s, Commit(request, RecoveryLogin(now, id, used))))
    ensures id in s.tables.challenges ==> NothingChanged(s, Next(s, Commit(request, OpenChallenge(id))))
    ensures request in s.flights ==>
      && Next(s, Load(request, id)) == s && Next(s, BeginLogin(request)) == s
      && Next(s, ReadChallenge(request, other)) == s
  {
  }

  /** Giving up ends the request and nothing else; so does naming one's own session for revocation. */
  lemma GivingUpChangesNothing(s: State, request: Id)
    requires request in s.flights
    ensures Next(s, Commit(request, Drop)) == s.(flights := s.flights - {request})
    ensures s.flights[request].Signed? ==>
      NothingChanged(s, Next(s, Commit(request, RevokeSession(s.flights[request].session))))
  {
  }

  /** Neither does an enrollment, begun or completed, that read a row with TOTP on. */
  lemma SecondEnrollmentIsRefused(s: State, request: Id, secret: Id, counter: int, now: int, others: bool)
    requires request in s.flights && s.flights[request].Signed? && s.flights[request].read != None
    requires s.flights[request].read.value.secret != None
    ensures NothingChanged(s, Next(s, Commit(request, StartEnrollment(secret))))
    ensures NothingChanged(s, Next(s, Commit(request, MakeChange(EnrollTotp(secret, counter), now, others))))
  {
  }

  /** A request that has loaded a session and not read the row changes neither password nor second factor. */
  lemma UnreadIsRefused(s: State, request: Id, action: Action)
    requires request in s.flights && s.flights[request].Signed? && s.flights[request].read == None
    requires action.StepUp? || action.StartEnrollment? || action.StartReplacement?
             || (action.MakeChange? && !action.change.ReplaceTotp?)
    ensures NothingChanged(s, Next(s, Commit(request, action)))
  {
  }

  // ---- sign-ins ---------------------------------------------------------------------------

  /** The session was inserted under the current version; every other session is as it was. */
  predicate SignedIn(t: Tables, u: Tables, session: Id) {
    && u.version == t.version && u.secret == t.secret
    && u.sessions == t.sessions[session := Session(t.version, false, t.version)]
  }

  /** A password opens a session for a customer without TOTP, and a challenge for one with it. */
  lemma PasswordServed(s: State, request: Id, session: Id, challenge: Id)
    requires request !in s.flights && session !in s.tables.sessions && challenge !in s.tables.challenges
    ensures var t := ServedAnonymous(s, request, PasswordLogin(session));
      if s.tables.secret == None
      then SignedIn(s.tables, t.tables, session) && Loads(t.tables, session) && t.acks == s.acks
      else NothingChanged(s, t)
    ensures var t := ServedAnonymous(s, request, OpenChallenge(challenge));
      if s.tables.secret == None then NothingChanged(s, t)
      else && t.acks == s.acks && t.flights == s.flights
           && t.tables == s.tables.(challenges := s.tables.challenges[challenge := Challenge(s.tables.version, None)])
  {
  }

  predicate OpenNow(t: Tables, challenge: Id) {
    challenge in t.challenges && t.challenges[challenge] == Challenge(t.version, None)
  }

  /** The second factor signs in exactly with an open challenge and a good code, and spends both. */
  lemma TotpServed(s: State, request: Id, challenge: Id, session: Id, counter: int, now: int)
    requires request !in s.flights && session !in s.tables.sessions
    ensures var t := ServedChallenge(s, request, challenge, TotpLogin(counter, now, session));
      if OpenNow(s.tables, challenge) && GoodCode(s.tables, counter)
      then && SignedIn(s.tables, t.tables, session) && Loads(t.tables, session)
           && t.acks == s.acks + [Ack(s.tables.secret.value, counter)] && t.tables.lastCounter == counter
           && t.tables.challenges == s.tables.challenges[challenge := Challenge(s.tables.version, Some(now))]
      else NothingChanged(s, t)
  {
  }

  /** A recovery code signs in without spending a time step. */
  lemma RecoveryServed(s: State, request: Id, challenge: Id, session: Id, now: int)
    requires request !in s.flights && session !in s.tables.sessions
    ensures var t := ServedChallenge(s, request, challenge, RecoveryLogin(now, session, true));
      if OpenNow(s.tables, challenge)
      then && SignedIn(s.tables, t.tables, session) && Loads(t.tables, session)
           && t.acks == s.acks && t.tables.lastCounter == s.tables.lastCounter
           && t.tables.challenges == s.tables.challenges[challenge := Challenge(s.tables.version, Some(now))]
      else NothingChanged(s, t)
    ensures ServedChallenge(s, request, challenge, RecoveryLogin(now, session, false)).tables.sessions
         == s.tables.sessions
  {
  }

  lemma PasskeyServed(s: State, request: Id, session: Id)
    requires request !in s.flights && session !in s.tables.sessions
    ensures var t := ServedAnonymous(s, request, PasskeyLogin(session));
      SignedIn(s.tables, t.tables, session) && Loads(t.tables, session) && t.acks == s.acks
  {
  }

  /** From the password to the session: the customer's whole sign-in with two factors. */
  lemma TwoFactorSignIn(s: State, request: Id, challenge: Id, session: Id, counter: int, now: int)
    requires request !in s.flights && session !in s.tables.sessions && challenge !in s.tables.challenges
    requires GoodCode(s.tables, counter)
    ensures var challenged := ServedAnonymous(s, request, OpenChallenge(challenge));
      var t := ServedChallenge(challenged, request, challenge, TotpLogin(counter, now, session));
      && Loads(t.tables, session) && t.acks == s.acks + [Ack(s.tables.secret.value, counter)]
      && NothingChanged(t, ServedChallenge(t, request, challenge, TotpLogin(counter + 1, now, session + 1)))
      && NothingChanged(t, ServedSigned(t, request, session, StepUp(counter, true)))
  {
    PasswordServed(s, request, session, challenge);
    var challenged := ServedAnonymous(s, request, OpenChallenge(challenge));
    TotpServed(challenged, request, challenge, session, counter, now);
    var t := ServedChallenge(challenged, request, challenge, TotpLogin(counter, now, session));
    StepUpServed(t, request, session, counter);
  }

  // ---- in runs ----------------------------------------------------------------------------

  lemma RunNext(s: State, steps: seq<Step>, step: Step)
    ensures Run(s, steps + [step]) == Next(Run(s, steps), step)
  {
    assert (steps + [step])[..|steps|] == steps;
  }

  /** Any run can go on with a request served without interference. */
  lemma RunServed(s: State, steps: seq<Step>, request: Id, session: Id, challenge: Id, action: Action)
    ensures Run(s, steps + [BeginLogin(request)] + [Commit(request, action)])
         == ServedAnonymous(Run(s, steps), request, action)
    ensures Run(s, steps + [ReadChallenge(request, challenge)] + [Commit(request, action)])
         == ServedChallenge(Run(s, steps), request, challenge, action)
    ensures Run(s, steps + [Load(request, session)] + [ReadRow(request)] + [Commit(request, action)])
         == ServedSigned(Run(s, steps), request, session, action)
  {
    RunNext(s, steps, BeginLogin(request));
    RunNext(s, steps + [BeginLogin(request)], Commit(request, action));
    RunNext(s, steps, ReadChallenge(request, challenge));
    RunNext(s, steps + [ReadChallenge(request, challenge)], Commit(request, action));
    RunNext(s, steps, Load(request, session));
    RunNext(s, steps + [Load(request, session)], ReadRow(request));
    RunNext(s, steps + [Load(request, session)] + [ReadRow(request)], Commit(request, action));
  }

  lemma FirstSignIn(start: State, session: Id) returns (steps: seq<Step>)
    requires Initial(start) && start.tables.secret == None
    ensures var t := Run(start, steps);
      && SignedIn(start.tables, t.tables, session) && Loads(t.tables, session)
      && t.flights == map[] && t.tokens == {} && t.acks == []
  {
    RunServed(start, [], 1, session, 0, PasswordLogin(session));
    PasswordServed(start, 1, session, 0);
    steps := [] + [BeginLogin(1)] + [Commit(1, PasswordLogin(session))];
  }

  lemma EnrollmentRuns(start: State, steps: seq<Step>, session: Id, secret: Id, counter: nat, now: int)
      returns (longer: seq<Step>)
    requires var s := Run(start, steps);
      1 !in s.flights && Loads(s.tables, session) && Fresh(s, secret) && s.tables.secret == None
    ensures exists t :: Installed(t, Run(start, longer), session, secret, counter)
                        && t.tables == Run(start, steps).tables && t.acks == Run(start, steps).acks
  {
    var s, change := Run(start, steps), MakeChange(EnrollTotp(secret, counter), now, true);
    var begun := steps + [Load(1, session)] + [ReadRow(1)] + [Commit(1, StartEnrollment(secret))];
    RunServed(start, steps, 1, session, 0, StartEnrollment(secret));
    EnrollmentStarted(s, 1, session, secret);
    RunServed(start, begun, 1, session, 0, change);
    EnrollmentServed(Run(start, begun), 1, session, secret, false, counter, now);
    longer := begun + [Load(1, session)] + [ReadRow(1)] + [Commit(1, change)];
  }

  /** Every activated customer without TOTP can sign in by password and enroll. */
  lemma FirstEnrollment(start: State, session: Id, secret: Id, counter: nat, now: int) returns (steps: seq<Step>)
    requires Initial(start) && start.tables.secret == None
    ensures Reachable(Run(start, steps))
    ensures var t := Run(start, steps);
      && t.tables.secret == Some(secret) && t.tables.version == start.tables.version + 1
      && t.acks == [Ack(secret, counter)] && OnlyLoads(t.tables, session)
  {
    var login := FirstSignIn(start, session);
    steps := EnrollmentRuns(start, login, session, secret, counter, now);
  }

  // ---- ends -------------------------------------------------------------------------------

  /** A password set by an administrator or by a reset ends every session and every challenge. */
  lemma PasswordReplaced(s: State, request: Id, now: int)
    requires request !in s.flights
    ensures var t := ServedAnonymous(s, request, AdminPassword(now)).tables;
      t.version == s.tables.version + 1 && t.secret == s.tables.secret && NoneLoads(t) && AllConsumed(t)
    ensures var t := ServedAnonymous(s, request, ResetPassword(now, true)).tables;
      t.version == s.tables.version + 1 && t.secret == s.tables.secret && NoneLoads(t) && AllConsumed(t)
    ensures var t := ServedAnonymous(s, request, ResetPassword(now, false)).tables;
      t.version == s.tables.version && t.secret == s.tables.secret && NoneLoads(t) && AllConsumed(t)
  {
  }

  /** Logging out ends the own session and no other. */
  lemma LogoutServed(s: State, request: Id, session: Id, other: Id)
    requires request !in s.flights && Loads(s.tables, session)
    ensures Loads(ServedSigned(s, request, session, Logout).tables, other) <==>
      Loads(s.tables, other) && other != session
  {
  }

  /** Revoking one session ends that one, revoking the others ends all but the own. */
  lemma RevocationServed(s: State, request: Id, session: Id, target: Id, other: Id)
    requires request !in s.flights && Loads(s.tables, session) && target != session
    ensures Loads(ServedSigned(s, request, session, RevokeSession(target)).tables, other) <==>
      Loads(s.tables, other) && other != target
  {
  }

  lemma RevokeOthersServed(s: State, request: Id, session: Id)
    requires request !in s.flights && Loads(s.tables, session)
    ensures OnlyLoads(ServedSigned(s, request, session, RevokeOthers).tables, session)
  {
  }
}
