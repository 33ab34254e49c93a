/**
 Managed administrators. An update is prepared from a row read earlier and applied by a
 versioned statement, which counts the active super administrators only if the row that was
 read would stop being one.
 */
module AdminUsers {

  import opened Common

  datatype Admin = Admin(superAdmin: bool, active: bool, version: int)
  {
    predicate ActiveSuper() { superAdmin && active }
  }

  type Admins = map<Id, Admin>

  /** The body of an update request; `version` is the row version its sender has seen. */
  datatype Request = Request(user: Id, actor: Id, superAdmin: bool, active: bool, version: int)

  /** The request together with the row the handler read for it. */
  datatype Flight = Flight(request: Request, read: Admin)

  datatype State = State(admins: Admins, flights: map<Id, Flight>)

  datatype Step =
    | AddAdmin(user: Id, superAdmin: bool)
    | ReadAdmin(flight: Id, request: Request)
    | Commit(flight: Id)

  function Supers(admins: Admins): set<Id> {
    set id | id in admins && admins[id].ActiveSuper()
  }

  predicate ChangesAccess(f: Flight) {
    f.request.superAdmin != f.read.superAdmin || f.request.active != f.read.active
  }

  predicate Refused(f: Flight) {
    f.request.version < 1 || (f.request.user == f.request.actor && ChangesAccess(f))
  }

  predicate RemovesActiveSuper(f: Flight) {
    f.read.ActiveSuper() && !(f.request.superAdmin && f.request.active)
  }

  predicate Applies(admins: Admins, f: Flight) {
    && !Refused(f) && f.request.user in admins && admins[f.request.user].version == f.request.version
    && (RemovesActiveSuper(f) ==> |Supers(admins)| > 1)
  }

  function Updated(admins: Admins, f: Flight): Admins {
    if Applies(admins, f)
    then admins[f.request.user := Admin(f.request.superAdmin, f.request.active, f.request.version + 1)]
    else admins
  }

  class AdminStore {
    var admins: Admins

    constructor (admins: Admins)
      ensures this.admins == admins
    {
      this.admins := admins;
    }

    /**
     The handler between its row read and its answer: it picks the statement by the row it read.
     One row changes at most, from the version the request names to the next; nobody changes their
     own access; and if the request is guarded, an active super administrator remains.
     */
    method UpdateManagedAdmin(f: Flight) returns (updated: bool)
      modifies this
      ensures admins == Updated(old(admins), f)
      ensures updated ==>
        && f.request.user in old(admins) && f.request.user in admins
        && old(admins)[f.request.user].version == f.request.version
        && admins[f.request.user] == Admin(f.request.superAdmin, f.request.active, f.request.version + 1)
        && (f.request.user == f.request.actor ==> !ChangesAccess(f))
      ensures !updated ==> admins == old(admins)
      ensures admins.Keys == old(admins).Keys
      ensures forall other :: other in admins && other != f.request.user ==> admins[other] == old(admins)[other]
      ensures Guarded(f) && Consistent(old(admins), f) && Supers(old(admins)) != {} ==> Supers(admins) != {}
    {
      if Guarded(f) && Consistent(admins, f) && Supers(admins) != {} { UpdateKeepsSuper(admins, f); }
      var request, read := f.request, f.read;
      if request.version < 1 { return false; }
      var changesAccess := request.superAdmin != read.superAdmin || request.active != read.active;
      if request.user == request.actor && changesAccess { return false; }
      if request.user !in admins || admins[request.user].version != request.version { return false; }
      var removes := read.superAdmin && read.active && (!request.superAdmin || !request.active);
      if removes && |Supers(admins)| <= 1 { return false; }
      admins := admins[request.user := Admin(request.superAdmin, request.active, request.version + 1)];
      updated := true;
    }
  }

  function Next(s: State, step: Step): State {
    match step
    case AddAdmin(user, superAdmin) =>
      if user in s.admins then s else s.(admins := s.admins[user := Admin(superAdmin, true, 1)])
    case ReadAdmin(flight, request) =>
      if flight in s.flights || request.user !in s.admins then s
      else s.(flights := s.flights[flight := Flight(request, s.admins[request.user])])
    case Commit(flight) =>
      if flight in s.flights then State(Updated(s.admins, s.flights[flight]), s.flights - {flight}) else s
  }

  function Run(s: State, steps: seq<Step>): State {
    if steps == [] then s else Next(Run(s, steps[..|steps| - 1]), steps[|steps| - 1])
  }

  /** A new administrator is active and not a super administrator unless asked for. */
  lemma AdminAdded(s: State, user: Id, superAdmin: bool)
    ensures Next(s, AddAdmin(user, superAdmin)).flights == s.flights
    ensures Next(s, AddAdmin(user, superAdmin)).admins
         == if user in s.admins then s.admins else s.admins[user := Admin(superAdmin, true, 1)]
  {
  }

  /**
   An update with nothing between its read and its commit is applied exactly if it names the row's
   version, does not change the sender's own access, and leaves another active super administrator
   if it takes that away from one.
   */
  lemma UpdateServed(s: State, flight: Id, request: Request)
    requires flight !in s.flights && request.user in s.admins
    ensures var row, t := s.admins[request.user], Next(Next(s, ReadAdmin(flight, request)), Commit(flight));
      && t.flights == s.flights
      && if && 1 <= request.version == row.version
            && (request.user == request.actor ==> (request.superAdmin, request.active) == (row.superAdmin, row.active))
            && (row.superAdmin && row.active && !(request.superAdmin && request.active) ==>
                  exists other :: other in s.admins && other != request.user
                                  && s.admins[other].superAdmin && s.admins[other].active)
         then t.admins == s.admins[request.user := Admin(request.superAdmin, request.active, row.version + 1)]
         else t.admins == s.admins
  {
    if s.admins[request.user].ActiveSuper() {
      OthersCount(s.admins, request.user);
    }
  }

  lemma OthersCount(admins: Admins, user: Id)
    requires user in admins && admins[user].ActiveSuper()
    ensures |Supers(admins)| > 1 <==> exists other :: other in admins && other != user && admins[other].ActiveSuper()
  {
    var others := Supers(admins) - {user};
    assert Supers(admins) == others + {user};
    if others != {} {
      var other := Member(others);
      assert other in admins && other != user && admins[other].ActiveSuper();
    } else {
      forall other | other in admins && other != user ensures !admins[other].ActiveSuper() {
        assert other !in others;
      }
    }
  }

  /** A row once read is still the row on file, or the row on file has a higher version. */
  predicate Consistent(admins: Admins, f: Flight) {
    && f.request.user in admins
    && (f.read == admins[f.request.user] || f.read.version < admins[f.request.user].version)
  }

  predicate Inv(s: State) {
    forall flight :: flight in s.flights ==> Consistent(s.admins, s.flights[flight])
  }

  /**
   The update cannot take the last active super administrator away unnoticed: it names no
   version newer than the row it was prepared from (a client that names the version it was
   shown and whose row has not changed since always qualifies), or that row or the result is an active
   super administrator, or the request is refused anyway.
   */
  predicate Guarded(f: Flight) {
    || f.request.version <= f.read.version
    || f.read.ActiveSuper()
    || (f.request.superAdmin && f.request.active)
    || Refused(f)
  }

  lemma Member(ids: set<Id>) returns (id: Id)
    requires ids != {}
    ensures id in ids
  {
    if forall other :: other !in ids { assert false; }
    id :| id in ids;
  }

  lemma UpdateKeepsSuper(admins: Admins, f: Flight)
    requires Consistent(admins, f) && Guarded(f) && Supers(admins) != {}
    ensures Supers(Updated(admins, f)) != {}
  {
    if Applies(admins, f) {
      var user, after := f.request.user, Updated(admins, f);
      if f.request.superAdmin && f.request.active {
        assert user in Supers(after);
      } else if admins[user].ActiveSuper() {
        assert RemovesActiveSuper(f);
        var others := Supers(admins) - {user};
        assert |others| == |Supers(admins)| - 1;
        var other := Member(others);
        assert other in Supers(after);
      } else {
        var other := Member(Supers(admins));
        assert other in Supers(after);
      }
    }
  }

  ghost predicate AlwaysKeepsSuper(f: Flight) {
    forall admins :: Consistent(admins, f) && Supers(admins) != {} ==> Supers(Updated(admins, f)) != {}
  }

  /** Guarded is exactly what it takes, whatever happened between the read and the update. */
  lemma KeepsSuperIffGuarded(f: Flight)
    ensures AlwaysKeepsSuper(f) <==> Guarded(f)
  {
    if Guarded(f) {
      forall admins | Consistent(admins, f) && Supers(admins) != {} ensures Supers(Updated(admins, f)) != {} {
        UpdateKeepsSuper(admins, f);
      }
    } else {
      // the user was promoted after the read and is now the only super administrator
      var admins := map[f.request.user := Admin(true, true, f.request.version)];
      assert f.request.user in Supers(admins);
      assert Consistent(admins, f) && Applies(admins, f);
      assert Supers(Updated(admins, f)) == {};
    }
  }

  lemma UpdateKeepsConsistency(admins: Admins, f: Flight, g: Flight)
    requires Consistent(admins, f) && Consistent(admins, g)
    ensures Consistent(Updated(admins, f), g)
  {
  }

  lemma StepKeepsSuper(s: State, step: Step)
    requires Inv(s) && Supers(s.admins) != {}
    requires step.Commit? && step.flight in s.flights ==> Guarded(s.flights[step.flight])
    ensures Inv(Next(s, step)) && Supers(Next(s, step).admins) != {}
  {
    match step
    case AddAdmin(user, superAdmin) =>
      var other := Member(Supers(s.admins));
      assert other in Supers(Next(s, step).admins);
    case ReadAdmin(_, _) =>
    case Commit(flight) =>
      if flight in s.flights {
        UpdateKeepsSuper(s.admins, s.flights[flight]);
        forall other | other in s.flights ensures Consistent(Updated(s.admins, s.flights[flight]), s.flights[other]) {
          UpdateKeepsConsistency(s.admins, s.flights[flight], s.flights[other]);
        }
      }
  }

  ghost predicate AllGuarded(s: State, steps: seq<Step>) {
    forall i :: 0 <= i < |steps| && steps[i].Commit? && steps[i].flight in Run(s, steps[..i]).flights ==>
      Guarded(Run(s, steps[..i]).flights[steps[i].flight])
  }

  /**
   However session checks, row reads and updates of several administrators interleave, an
   active super administrator remains.
   */
  lemma {:induction false} SuperAdminRemains(s: State, steps: seq<Step>)
    requires Inv(s) && Supers(s.admins) != {} && AllGuarded(s, steps)
    ensures Inv(Run(s, steps)) && Supers(Run(s, steps).admins) != {}
  {
    if steps != [] {
      var earlier := steps[..|steps| - 1];
      forall i | 0 <= i < |earlier| && earlier[i].Commit? && earlier[i].flight in Run(s, earlier[..i]).flights
        ensures Guarded(Run(s, earlier[..i]).flights[earlier[i].flight])
      {
        assert earlier[..i] == steps[..i] && earlier[i] == steps[i];
      }
      SuperAdminRemains(s, earlier);
      StepKeepsSuper(Run(s, earlier), steps[|steps| - 1]);
    }
  }

  lemma RunNext(s: State, steps: seq<Step>, step: Step)
    ensures Run(s, steps + [step]) == Next(Run(s, steps), step)
  {
    assert (steps + [step])[..|steps|] == steps;
  }

  /** Administrator 1 is a super administrator, administrator 2 is not. */
  const Founded := State(map[1 := Admin(true, true, 1), 2 := Admin(false, true, 1)], map[])

  /** Demotes 2 and names the version its row is going to have; promotes 2; demotes 1. */
  const Early := Request(2, 3, false, true, 2)
  const Promotion := Request(2, 1, true, true, 1)
  const Demotion := Request(1, 2, false, true, 1)

  lemma ReadsOfTwo(s: State)
    requires s == Next(Next(Founded, ReadAdmin(10, Early)), ReadAdmin(11, Promotion))
    ensures s.admins == Founded.admins
    ensures s.flights == map[10 := Flight(Early, Admin(false, true, 1)), 11 := Flight(Promotion, Admin(false, true, 1))]
  {
  }

  lemma Promoted(s: State)
    requires s.admins == Founded.admins
    requires s.flights == map[10 := Flight(Early, Admin(false, true, 1)),
                              11 := Flight(Promotion, Admin(false, true, 1))]
    ensures var t := Next(Next(s, Commit(11)), ReadAdmin(12, Demotion));
      && t.admins == map[1 := Admin(true, true, 1), 2 := Admin(true, true, 2)]
      && t.flights == map[10 := Flight(Early, Admin(false, true, 1)), 12 := Flight(Demotion, Admin(true, true, 1))]
  {
  }

  lemma BothDemoted(s: State)
    requires s.admins == map[1 := Admin(true, true, 1), 2 := Admin(true, true, 2)]
    requires s.flights == map[10 := Flight(Early, Admin(false, true, 1)), 12 := Flight(Demotion, Admin(true, true, 1))]
    ensures Supers(Next(Next(s, Commit(12)), Commit(10)).admins) == {}
  {
    assert Supers(s.admins) == {1, 2};
    assert Next(s, Commit(12)).admins == map[1 := Admin(false, true, 2), 2 := Admin(true, true, 2)];
  }

  /**
   A run that loses the last super administrator: a demotion is read for a version its row does
   not have yet, the row is promoted to that version, the other super administrator is demoted,
   and only then the first demotion is applied, without counting who remains.
   */
  lemma FutureVersionLosesSuper() returns (steps: seq<Step>)
    ensures Inv(Founded) && 1 in Supers(Founded.admins)
    ensures Supers(Run(Founded, steps).admins) == {}
  {
    steps := [];
    var todo := [ReadAdmin(10, Early), ReadAdmin(11, Promotion), Commit(11), ReadAdmin(12, Demotion),
                 Commit(12), Commit(10)];
    RunNext(Founded, [], todo[0]);
    RunNext(Founded, [] + [todo[0]], todo[1]);
    var read := [] + [todo[0]] + [todo[1]];
    ReadsOfTwo(Run(Founded, read));
    RunNext(Founded, read, todo[2]);
    RunNext(Founded, read + [todo[2]], todo[3]);
    var promoted := read + [todo[2]] + [todo[3]];
    Promoted(Run(Founded, read));
    RunNext(Founded, promoted, todo[4]);
    RunNext(Founded, promoted + [todo[4]], todo[5]);
    BothDemoted(Run(Founded, promoted));
    steps := promoted + [todo[4]] + [todo[5]];
  }
}
