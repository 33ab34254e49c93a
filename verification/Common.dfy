/** What several components share. */
module Common {

  datatype Option<+T> = None | Some(value: T)

  /** Identifiers of rows and requests: only ever compared for equality. */
  type Id = int

  const MAX_INT64 := 0x7fff_ffff_ffff_ffff

  /** A request answered with success after checking a code of `secret` for time step `counter`. */
  datatype Ack = Ack(secret: Id, counter: int)

  /** The time steps acknowledged for one secret, in the order of their answers. */
  predicate StrictlyIncreasing(acks: seq<Ack>) {
    forall i, j :: 0 <= i < j < |acks| && acks[i].secret == acks[j].secret ==> acks[i].counter < acks[j].counter
  }

  /** Ids never run out. */
  lemma {:induction false} UnusedId(used: set<Id>) returns (id: Id)
    ensures forall other :: other in used ==> other < id
    decreases |used|
  {
    id := 0;
    if some: Id :| some in used {
      var rest := used - {some};
      id := UnusedId(rest);
      if id <= some { id := some + 1; }
      forall other | other in used ensures other < id {
        assert other == some || other in rest;
      }
    }
  }
}
