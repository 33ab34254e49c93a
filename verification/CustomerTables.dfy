/**
 One customer's credential row, sessions and login challenges, and the SQL statements that
 change them. A batch is a sequence of statements in one serializable transaction; a statement
 whose WHERE clause matches nothing does not undo the others, and the handler looks at the
 change counts only after the batch has committed.
 */
module CustomerTables {

  import opened Common

  /** `born` is the version the row was inserted with; it is history and no statement reads it. */
  datatype Session = Session(version: int, revoked: bool, born: int)

  datatype Challenge = Challenge(version: int, consumed: Option<int>)

  datatype Tables = Tables(
    version: int, secret: Option<Id>, lastCounter: int,
    sessions: map<Id, Session>, challenges: map<Id, Challenge>)

  /** The actions that raise the credential version on behalf of a signed-in customer. */
  datatype Change =
    | ChangePassword(counter: int)
    | ChangeEmail(counter: int)
    | EnrollTotp(secret: Id, counter: int)
    | ReplaceTotp(secret: Id, counter: int)
  {
    predicate InstallsSecret() { EnrollTotp? || ReplaceTotp? }
  }

  /** What loadCustomerSession accepts, leaving expiry times aside. */
  predicate Loads(t: Tables, session: Id) {
    session in t.sessions && !t.sessions[session].revoked && t.sessions[session].version == t.version
  }

  // ---- statements -------------------------------------------------------------------------

  predicate ChangeApplies(t: Tables, change: Change, guard: int) {
    t.version == guard
    && match change
       case ChangePassword(counter) => t.lastCounter < counter
       case ChangeEmail(counter) => t.lastCounter < counter
       case EnrollTotp(_, _) => t.secret == None
       case ReplaceTotp(_, _) => true
  }

  function SetCredentials(t: Tables, change: Change, guard: int, newVersion: int): Tables {
    if ChangeApplies(t, change, guard)
    then t.(version := newVersion, lastCounter := change.counter,
            secret := if change.InstallsSecret() then Some(change.secret) else t.secret)
    else t
  }

  function RevokeAllBut(t: Tables, keep: Option<Id>): Tables {
    t.(sessions := map id | id in t.sessions ::
         if keep == Some(id) then t.sessions[id] else t.sessions[id].(revoked := true))
  }

  predicate RaiseApplies(t: Tables, session: Id, from: int) {
    session in t.sessions && !t.sessions[session].revoked && t.sessions[session].version == from
  }

  function RaiseSession(t: Tables, session: Id, from: int, to: int): Tables {
    if RaiseApplies(t, session, from)
    then t.(sessions := t.sessions[session := t.sessions[session].(version := to)])
    else t
  }

  function ConsumeChallenges(t: Tables, now: int): Tables {
    t.(challenges := map id | id in t.challenges ::
         if t.challenges[id].consumed == None then t.challenges[id].(consumed := Some(now)) else t.challenges[id])
  }

  predicate CounterApplies(t: Tables, version: int, counter: int) {
    t.version == version && t.lastCounter < counter
  }

  function UseCounter(t: Tables, version: int, counter: int): Tables {
    if CounterApplies(t, version, counter) then t.(lastCounter := counter) else t
  }

  predicate ConsumeApplies(t: Tables, challenge: Id, version: int) {
    && challenge in t.challenges && t.challenges[challenge].version == version
    && t.challenges[challenge].consumed == None && t.version == version
  }

  function ConsumeChallenge(t: Tables, challenge: Id, version: int, now: int): Tables {
    if ConsumeApplies(t, challenge, version)
    then t.(challenges := t.challenges[challenge := t.challenges[challenge].(consumed := Some(now))])
    else t
  }

  function InsertSession(t: Tables, session: Id, version: int): Tables {
    t.(sessions := t.sessions[session := Session(version, false, version)])
  }

  predicate ConsumedAt(t: Tables, challenge: Id, now: int) {
    challenge in t.challenges && t.challenges[challenge].consumed == Some(now)
  }

  // ---- batches ----------------------------------------------------------------------------

  /** Password, e-mail and TOTP changes of a signed-in customer share these statements. */
  function ChangeBatch(t: Tables, change: Change, session: Id, guard: int, newVersion: int, now: int): Tables {
    ConsumeChallenges(
      RaiseSession(RevokeAllBut(SetCredentials(t, change, guard, newVersion), Some(session)),
                   session, guard, newVersion),
      now)
  }

  predicate ChangeAcknowledged(t: Tables, change: Change, session: Id, guard: int) {
    ChangeApplies(t, change, guard) && RaiseApplies(t, session, guard)
  }

  predicate LoginInserts(t: Tables, challenge: Id, version: int, counter: int, now: int) {
    ConsumedAt(t, challenge, now) && t.version == version && t.lastCounter == counter
  }

  /** The session row depends on the stored counter, not on this batch having stored it. */
  function LoginBatch(t: Tables, challenge: Id, version: int, counter: int, now: int, session: Id): Tables {
    var used := UseCounter(ConsumeChallenge(t, challenge, version, now), version, counter);
    if LoginInserts(used, challenge, version, counter, now) then InsertSession(used, session, version) else used
  }

  predicate LoginAcknowledged(t: Tables, challenge: Id, version: int, counter: int) {
    ConsumeApplies(t, challenge, version) && CounterApplies(t, version, counter)
  }

  function Bump(t: Tables, guard: int): Tables {
    if t.version == guard then t.(version := guard + 1) else t
  }

  /** An administrator's password: sessions and challenges end only if the credentials changed. */
  function AdminPasswordBatch(t: Tables, guard: int, now: int): Tables {
    if t.version == guard then ConsumeChallenges(RevokeAllBut(Bump(t, guard), None), now) else t
  }

  /** A password reset: they end in any case; `usable` is whether the reset request was consumed. */
  function ResetBatch(t: Tables, guard: int, usable: bool, now: int): Tables {
    ConsumeChallenges(RevokeAllBut(if usable then Bump(t, guard) else t, None), now)
  }

  /** `codeUsed`: the recovery code row is marked used at this instant. */
  function RecoveryBatch(t: Tables, challenge: Id, version: int, codeUsed: bool, now: int, session: Id): Tables {
    var consumed := ConsumeChallenge(t, challenge, version, now);
    if codeUsed && ConsumedAt(consumed, challenge, now) && consumed.version == version
    then InsertSession(consumed, session, version) else consumed
  }

  /** Every session but one is what it was, and none but that one is new. */
  predicate SessionsKeptBut(session: Id, before: map<Id, Session>, after: map<Id, Session>) {
    && before.Keys <= after.Keys <= before.Keys + {session}
    && forall id :: id in before && id != session ==> after[id] == before[id]
  }

  /** At most this challenge was consumed, now. */
  predicate OnlyConsumes(challenge: Id, now: int, before: map<Id, Challenge>, after: map<Id, Challenge>) {
    && after.Keys == before.Keys
    && forall id :: id in after ==>
         after[id] == before[id]
         || (id == challenge && before[id].consumed == None && after[id] == before[id].(consumed := Some(now)))
  }

  /** The same sessions and challenges, all of them revoked or consumed, and the secret untouched. */
  predicate EverythingEnded(before: Tables, after: Tables) {
    && (after.secret, after.lastCounter) == (before.secret, before.lastCounter)
    && after.sessions.Keys == before.sessions.Keys && after.challenges.Keys == before.challenges.Keys
    && (forall id :: id in after.sessions ==> after.sessions[id].revoked && !Loads(after, id))
    && (forall id :: id in after.challenges ==>
          && after.challenges[id].consumed != None
          && (before.challenges[id].consumed != None ==> after.challenges[id] == before.challenges[id]))
  }

  class CredentialStore {
    var version: int
    var secret: Option<Id>
    var lastCounter: int
    var sessions: map<Id, Session>
    var challenges: map<Id, Challenge>

    function Rows(): Tables reads this { Tables(version, secret, lastCounter, sessions, challenges) }

    constructor (t: Tables)
      ensures Rows() == t
    {
      version, secret, lastCounter := t.version, t.secret, t.lastCounter;
      sessions, challenges := t.sessions, t.challenges;
    }

    method UpdateCredentials(change: Change, guard: int, newVersion: int) returns (changed: bool)
      modifies this
      ensures Rows() == SetCredentials(old(Rows()), change, guard, newVersion)
      ensures changed <==> ChangeApplies(old(Rows()), change, guard)
    {
      changed := ChangeApplies(Rows(), change, guard);
      if changed {
        version, lastCounter := newVersion, change.counter;
        if change.InstallsSecret() { secret := Some(change.secret); }
      }
    }

    method RevokeOtherSessions(keep: Id)
      modifies this`sessions
      ensures Rows() == RevokeAllBut(old(Rows()), Some(keep))
    {
      sessions := map id | id in sessions ::
        if Some(keep) == Some(id) then sessions[id] else sessions[id].(revoked := true);
    }

    method RaiseOwnSession(session: Id, from: int, to: int) returns (changed: bool)
      modifies this`sessions
      ensures Rows() == RaiseSession(old(Rows()), session, from, to)
      ensures changed <==> RaiseApplies(old(Rows()), session, from)
    {
      changed := session in sessions && !sessions[session].revoked && sessions[session].version == from;
      if changed {
        sessions := sessions[session := sessions[session].(version := to)];
      }
    }

    method ConsumeOpenChallenges(now: int)
      modifies this`challenges
      ensures Rows() == ConsumeChallenges(old(Rows()), now)
    {
      challenges := map id | id in challenges ::
        if challenges[id].consumed == None then challenges[id].(consumed := Some(now)) else challenges[id];
    }

    /** Statement by statement; the answer is read off the change counts afterwards. */
    method Change(change: Change, session: Id, guard: int, newVersion: int, now: int) returns (acknowledged: bool)
      modifies this
      ensures Rows() == ChangeBatch(old(Rows()), change, session, guard, newVersion, now)
      ensures acknowledged <==> ChangeAcknowledged(old(Rows()), change, session, guard)
    {
      var applied := UpdateCredentials(change, guard, newVersion);
      RevokeOtherSessions(session);
      var raised := RaiseOwnSession(session, guard, newVersion);
      ConsumeOpenChallenges(now);
      acknowledged := applied && raised;
    }

    method RevokeAllSessions()
      modifies this`sessions
      ensures Rows() == RevokeAllBut(old(Rows()), None)
    {
      sessions := map id | id in sessions :: sessions[id].(revoked := true);
    }

    /**
     Whether or not the reset request still applies, no session loads afterwards and no challenge
     stays open; only the version depends on it.
     */
    method ResetPassword(guard: int, usable: bool, now: int) returns (changed: bool)
      modifies this
      ensures Rows() == ResetBatch(old(Rows()), guard, usable, now)
      ensures changed <==> usable && old(version) == guard
      ensures version == old(version) + if changed then 1 else 0
      ensures EverythingEnded(old(Rows()), Rows())
    {
      changed := usable && version == guard;
      if changed { version := guard + 1; }
      RevokeAllSessions();
      ConsumeOpenChallenges(now);
    }

    /** Either the version rises and every session and challenge ends, or nothing changes at all. */
    method SetPasswordByAdmin(guard: int, now: int) returns (changed: bool)
      modifies this
      ensures Rows() == AdminPasswordBatch(old(Rows()), guard, now)
      ensures changed <==> old(version) == guard
      ensures if changed then version == guard + 1 && EverythingEnded(old(Rows()), Rows()) else Rows() == old(Rows())
    {
      changed := version == guard;
      if changed {
        version := guard + 1;
        RevokeAllSessions();
        ConsumeOpenChallenges(now);
      }
    }

    method RecoveryLogin(challenge: Id, guard: int, codeUsed: bool, now: int, session: Id) returns (acknowledged: bool)
      modifies this
      ensures Rows() == RecoveryBatch(old(Rows()), challenge, guard, codeUsed, now, session)
      ensures acknowledged <==> codeUsed && ConsumeApplies(old(Rows()), challenge, guard)
      ensures acknowledged ==> Loads(Rows(), session) && sessions[session] == Session(guard, false, guard)
      ensures SessionsKeptBut(session, old(sessions), sessions)
      ensures !codeUsed ==> sessions == old(sessions)
      ensures (version, secret, lastCounter) == old((version, secret, lastCounter))
      ensures OnlyConsumes(challenge, now, old(challenges), challenges)
    {
      var consumed := ConsumeApplies(Rows(), challenge, guard);
      if consumed {
        challenges := challenges[challenge := challenges[challenge].(consumed := Some(now))];
      }
      var inserted := codeUsed && ConsumedAt(Rows(), challenge, now) && version == guard;
      if inserted {
        sessions := sessions[session := Session(guard, false, guard)];
      }
      acknowledged := consumed && inserted;
    }

    method TotpLogin(challenge: Id, guard: int, counter: int, now: int, session: Id) returns (acknowledged: bool)
      modifies this
      ensures Rows() == LoginBatch(old(Rows()), challenge, guard, counter, now, session)
      ensures acknowledged <==> LoginAcknowledged(old(Rows()), challenge, guard, counter)
      ensures acknowledged ==>
        && Loads(Rows(), session) && sessions[session] == Session(guard, false, guard)
        && old(lastCounter) < lastCounter == counter && ConsumedAt(Rows(), challenge, now)
      ensures SessionsKeptBut(session, old(sessions), sessions)
      ensures version != guard || lastCounter != counter ==> sessions == old(sessions)
      ensures (version, secret) == old((version, secret)) && old(lastCounter) <= lastCounter
      ensures OnlyConsumes(challenge, now, old(challenges), challenges)
    {
      var consumed := ConsumeApplies(Rows(), challenge, guard);
      if consumed {
        challenges := challenges[challenge := challenges[challenge].(consumed := Some(now))];
      }
      var used := version == guard && lastCounter < counter;
      if used { lastCounter := counter; }
      var inserted := LoginInserts(Rows(), challenge, guard, counter, now);
      if inserted {
        sessions := sessions[session := Session(guard, false, guard)];
      }
      acknowledged := consumed && used && inserted;
    }
  }

  // ---- what the batches mean --------------------------------------------------------------

  /**
   An acknowledged change leaves exactly one loadable session, the one that made it, under the
   next credential version, with the counter it was authorised by on file.
   */
  lemma AcknowledgedChangeLeavesOneSession(t: Tables, change: Change, session: Id, now: int, other: Id)
    requires ChangeAcknowledged(t, change, session, t.version)
    ensures var u := ChangeBatch(t, change, session, t.version, t.version + 1, now);
      && u.version == t.version + 1 && u.lastCounter == change.counter
      && (Loads(u, other) <==> other == session)
  {
  }

  /** Every other session is revoked even by a batch whose credential update did not apply. */
  lemma ChangeAlwaysRevokesOthers(t: Tables, change: Change, session: Id, guard: int, newVersion: int, now: int,
      other: Id)
    requires other in t.sessions && other != session
    ensures var u := ChangeBatch(t, change, session, guard, newVersion, now);
      other in u.sessions && u.sessions[other].revoked
  {
  }

  /**
   A challenge that was opened under another version, or was consumed at another time, signs nobody
   in, by neither factor.
   */
  lemma SpentChallengeSignsNobodyIn(t: Tables, challenge: Id, version: int, counter: int, codeUsed: bool, now: int,
      session: Id)
    requires challenge !in t.challenges || t.challenges[challenge].consumed !in {None, Some(now)}
             || version != t.version
             || (t.challenges[challenge].consumed == None && t.challenges[challenge].version != version)
    ensures LoginBatch(t, challenge, version, counter, now, session).sessions == t.sessions
    ensures RecoveryBatch(t, challenge, version, codeUsed, now, session).sessions == t.sessions
    ensures !LoginAcknowledged(t, challenge, version, counter) && !ConsumeApplies(t, challenge, version)
  {
  }

  /** A time step earlier than the one on file signs nobody in and lowers nothing. */
  lemma EarlierCodeSignsNobodyIn(t: Tables, challenge: Id, version: int, counter: int, now: int, session: Id)
    requires counter < t.lastCounter
    ensures var u := LoginBatch(t, challenge, version, counter, now, session);
      u.sessions == t.sessions && u.lastCounter == t.lastCounter && !LoginAcknowledged(t, challenge, version, counter)
  {
  }

  /** The session that asks for a change follows it to the new version, unless it has ended or moved on. */
  lemma OwnSessionFollows(t: Tables, change: Change, session: Id, guard: int, newVersion: int, now: int)
    requires session in t.sessions
    ensures var before, after := t.sessions[session], ChangeBatch(t, change, session, guard, newVersion, now).sessions;
      session in after
      && after[session] == if !before.revoked && before.version == guard then before.(version := newVersion) else before
  {
  }

  /**
   Two sign-ins racing with the same code: the one that commits second is not acknowledged,
   yet it may insert a session row nobody receives. So the strictness of counters below is a
   statement about acknowledged actions.
   */
  lemma LosingLoginMayInsert(t: Tables, first: Id, second: Id, counter: int, now: int, a: Id, b: Id)
    requires first != second && a != b
    requires ConsumeApplies(t, first, t.version) && ConsumeApplies(t, second, t.version)
    requires t.lastCounter < counter
    ensures var once := LoginBatch(t, first, t.version, counter, now, a);
      && LoginAcknowledged(t, first, t.version, counter)
      && !LoginAcknowledged(once, second, t.version, counter)
      && Loads(LoginBatch(once, second, t.version, counter, now, b), b)
  {
  }
}
