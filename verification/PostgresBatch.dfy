/**
 Batch: the statements run in one serializable transaction, which is tried again after a
 serialization failure. Other transactions may commit between two tries. Statements are
 arbitrary: each reads the tables and either changes them, reporting how many rows it
 changed, or fails.
 */
module PostgresBatch {
  import opened Common

  datatype Outcome<T> = Done(tables: T, changes: nat) | Broken

  type Statement<!T> = T -> Outcome<T>

  datatype Failure = Retryable | Fatal

  /**
   What can go wrong in one try: the server aborts it (a serialization failure or a deadlock) or it
   fails otherwise, at some statement or at the commit; or the answer to the commit is lost, and
   nobody was told whether it took effect.
   */
  datatype Trouble = Aborted(at: nat) | Errored(at: nat) | CommitUnknown(took: bool)

  /** One try: other transactions commit first, and the caller may have given up by its end. */
  datatype Attempt<!T> = Attempt(others: T -> T, trouble: Option<Trouble>, cancelled: bool)

  datatype Reply = Committed(changes: seq<nat>) | Failed(failure: Failure)

  const MAX_SERIALIZABLE_ATTEMPTS := 3

  /** The statements one after the other; nothing at all if any of them fails. */
  function Applied<T>(statements: seq<Statement<T>>, t: T): Option<(T, seq<nat>)> {
    if statements == [] then Some((t, []))
    else
      match Applied(statements[..|statements| - 1], t)
      case None => None
      case Some((mid, changes)) =>
        match statements[|statements| - 1](mid)
        case Broken => None
        case Done(after, changed) => Some((after, changes + [changed]))
  }

  /** Two batches' statements in one batch are the two one after the other, all or nothing. */
  lemma {:induction false} AppliedTogether<T>(first: seq<Statement<T>>, second: seq<Statement<T>>, t: T)
    ensures Applied(first + second, t) ==
      match Applied(first, t)
      case None => None
      case Some((mid, changes)) =>
        match Applied(second, mid)
        case None => None
        case Some((after, more)) => Some((after, changes + more))
    decreases |second|
  {
    if second == [] {
      assert first + second == first;
      if Applied(first, t).Some? { assert Applied(first, t).value.1 + [] == Applied(first, t).value.1; }
    } else {
      var front := second[..|second| - 1];
      AppliedTogether(first, front, t);
      assert (first + second)[..|first + second| - 1] == first + front;
      if Applied(first, t).Some? && Applied(front, Applied(first, t).value.0).Some? {
        var changes, more := Applied(first, t).value.1, Applied(front, Applied(first, t).value.0).value.1;
        assert forall changed: nat :: (changes + more) + [changed] == changes + (more + [changed]);
      }
    }
  }

  /** A statement that changes nothing where the batch reaches it leaves the rest of the batch alone. */
  lemma ZeroChangesUndoNothing<T>(before: seq<Statement<T>>, idle: Statement<T>, after: seq<Statement<T>>, t: T)
    requires Applied(before, t).Some? ==> idle(Applied(before, t).value.0) == Done(Applied(before, t).value.0, 0)
    ensures Applied(before + [idle] + after, t).Some? <==> Applied(before + after, t).Some?
    ensures Applied(before + after, t).Some? ==>
      Applied(before + [idle] + after, t).value.0 == Applied(before + after, t).value.0
  {
    AppliedTogether(before + [idle], after, t);
    AppliedTogether(before, [idle], t);
    AppliedTogether(before, after, t);
    if Applied(before, t).Some? {
      var mid := Applied(before, t).value.0;
      assert [idle][..0] == [] && Applied([idle], mid) == Some((mid, [] + [0]));
    }
  }

  /** The tables after the other transactions of the first n tries. */
  function Interfered<T>(t: T, attempts: seq<Attempt<T>>, n: nat): T
    requires n <= |attempts|
  {
    if n == 0 then t else attempts[n - 1].others(Interfered(t, attempts, n - 1))
  }

  /** An abort by the server is worth another try; nothing else is, least of all an unknown commit. */
  function FailureOf(trouble: Trouble): Failure {
    if trouble.Aborted? then Retryable else Fatal
  }

  predicate HitsAt(trouble: Option<Trouble>, i: nat) {
    trouble.Some? && !trouble.value.CommitUnknown? && trouble.value.at == i
  }

  /** The statements before this one, or all of them. */
  function Before<T>(statements: seq<Statement<T>>, at: nat): seq<Statement<T>> {
    if at < |statements| then statements[..at] else statements
  }

  /** The try committed although its answer was lost. */
  predicate Took<T>(statements: seq<Statement<T>>, t: T, trouble: Option<Trouble>) {
    trouble == Some(CommitUnknown(true)) && Applied(statements, t).Some?
  }

  /**
   The server aborts each of the first n tries, at a statement or at the commit it did reach, and
   the caller is still waiting.
   */
  predicate AllAborted<T>(statements: seq<Statement<T>>, t: T, attempts: seq<Attempt<T>>, n: nat)
    requires n <= |attempts|
  {
    forall i :: 0 <= i < n ==>
      && attempts[i].trouble.Some? && attempts[i].trouble.value.Aborted? && !attempts[i].cancelled
      && Applied(statements, Interfered(t, attempts, i + 1)).Some?
  }

  class Client<!T> {
    var tables: T

    constructor (tables: T)
      ensures this.tables == tables
    {
      this.tables := tables;
    }

    /**
     Works on the transaction's own view; only a commit makes it the tables. A failure leaves the
     tables alone, unless it is the answer to a commit that was lost.
     */
    method BatchOnce(statements: seq<Statement<T>>, trouble: Option<Trouble>) returns (reply: Reply)
      modifies this
      ensures reply.Committed? ==> Applied(statements, old(tables)) == Some((tables, reply.changes))
      ensures reply.Failed? ==> if Took(statements, old(tables), trouble)
                                then reply == Failed(Fatal) && tables == Applied(statements, old(tables)).value.0
                                else tables == old(tables)
      ensures reply.Committed? <==> trouble == None && Applied(statements, old(tables)).Some?
      ensures trouble.Some? && trouble.value.Aborted? ==>
        (reply == Failed(Retryable) <==> Applied(Before(statements, trouble.value.at), old(tables)).Some?)
      ensures trouble.Some? && trouble.value.Aborted? && Applied(statements, old(tables)).Some? ==>
        reply == Failed(Retryable)
      ensures trouble == None || !trouble.value.Aborted? ==> reply != Failed(Retryable)
    {
      var view, changes := tables, [];
      var i := 0;
      while i < |statements|
        invariant 0 <= i <= |statements| && tables == old(tables)
        invariant Applied(statements[..i], old(tables)) == Some((view, changes))
        invariant trouble.Some? && !trouble.value.CommitUnknown? ==> i <= trouble.value.at
      {
        if HitsAt(trouble, i) { return Failed(FailureOf(trouble.value)); }
        assert statements[..i + 1][..i] == statements[..i];
        match statements[i](view) {
          case Broken =>
            BrokenBreaksAll(statements, i + 1, tables);
            if trouble.Some? && trouble.value.Aborted? {
              ghost var reached := Before(statements, trouble.value.at);
              assert reached[..i + 1] == statements[..i + 1];
              BrokenBreaksAll(reached, i + 1, tables);
            }
            return Failed(Fatal);
          case Done(after, changed) =>
            view, changes := after, changes + [changed];
        }
        i := i + 1;
      }
      assert statements[..|statements|] == statements;
      if trouble.Some? {
        if trouble.value == CommitUnknown(true) { tables := view; }
        return Failed(FailureOf(trouble.value));
      }
      tables := view;
      reply := Committed(changes);
    }

    /**
     At most three tries, and the batch takes effect at most once: on the tables as the last try
     found them, or not at all. It is tried again after an abort by the server and after nothing
     else, so a batch that is aborted and then left alone does commit.
     */
    method Batch(statements: seq<Statement<T>>, attempts: seq<Attempt<T>>) returns (reply: Reply, tries: nat)
      requires |attempts| == MAX_SERIALIZABLE_ATTEMPTS
      modifies this
      ensures tries <= MAX_SERIALIZABLE_ATTEMPTS
      ensures tries == 0 <==> statements == []
      ensures tries == 0 ==> reply == Failed(Fatal) && tables == old(tables)
      ensures reply.Committed? ==>
        Applied(statements, Interfered(old(tables), attempts, tries)) == Some((tables, reply.changes))
      ensures reply.Failed? && tries > 0 ==>
        var last := Interfered(old(tables), attempts, tries);
        if Took(statements, last, attempts[tries - 1].trouble)
        then reply == Failed(Fatal) && tables == Applied(statements, last).value.0
        else tables == last
      ensures tries > 0 && reply == Failed(Retryable) ==>
        tries == MAX_SERIALIZABLE_ATTEMPTS || attempts[tries - 1].cancelled
      ensures forall i :: 0 <= i < tries - 1 ==>
        attempts[i].trouble.Some? && attempts[i].trouble.value.Aborted? && !attempts[i].cancelled
      ensures forall n ::
        (&& 1 <= n <= MAX_SERIALIZABLE_ATTEMPTS && statements != []
         && AllAborted(statements, old(tables), attempts, n - 1) && attempts[n - 1].trouble == None
         && Applied(statements, Interfered(old(tables), attempts, n)).Some?)
        ==> reply.Committed? && tries == n
      ensures statements != [] && AllAborted(statements, old(tables), attempts, MAX_SERIALIZABLE_ATTEMPTS) ==>
        reply == Failed(Retryable) && tries == MAX_SERIALIZABLE_ATTEMPTS
    {
      tries := 0;
      reply := Failed(Fatal);
      if statements == [] { return; }
      while tries < MAX_SERIALIZABLE_ATTEMPTS
        invariant tries <= MAX_SERIALIZABLE_ATTEMPTS
        invariant tables == Interfered(old(tables), attempts, tries)
        invariant tries > 0 ==> reply == Failed(Retryable) && !Took(statements, tables, attempts[tries - 1].trouble)
        invariant forall i :: 0 <= i < tries ==>
          attempts[i].trouble.Some? && attempts[i].trouble.value.Aborted? && !attempts[i].cancelled
      {
        var attempt := attempts[tries];
        tables := attempt.others(tables);
        tries := tries + 1;
        reply := BatchOnce(statements, attempt.trouble);
        if reply.Committed? || reply.failure == Fatal || attempt.cancelled { return; }
      }
    }
  }

  lemma {:induction false} BrokenBreaksAll<T>(statements: seq<Statement<T>>, n: nat, t: T)
    requires n <= |statements| && Applied(statements[..n], t) == None
    ensures Applied(statements, t) == None
    decreases |statements| - n
  {
    if n == |statements| {
      assert statements[..n] == statements;
    } else {
      assert statements[..n + 1][..n] == statements[..n];
      BrokenBreaksAll(statements, n + 1, t);
    }
  }
}
