/**
 The egress relay accepts a signed request once: its timestamp must lie within the allowed skew
 of the relay's clock, and its nonce is remembered for the replay window. Times are in
 nanoseconds; requests are taken in the order in which they hold the lock.
 */
module RelayNonce {

  type Nonce = string

  const MAX_CLOCK_SKEW := 90_000_000_000
  const REPLAY_WINDOW := 180_000_000_000

  /** `signed`: the headers are well formed and the signature fits. */
  datatype Request = Request(timestamp: int, nonce: Nonce, signed: bool, now: int)

  predicate InWindow(r: Request) {
    r.now - MAX_CLOCK_SKEW <= r.timestamp <= r.now + MAX_CLOCK_SKEW
  }

  function Unexpired(nonces: map<Nonce, int>, now: int): map<Nonce, int> {
    map key | key in nonces && nonces[key] > now :: nonces[key]
  }

  predicate Accepts(nonces: map<Nonce, int>, r: Request) {
    InWindow(r) && r.signed && r.nonce !in Unexpired(nonces, r.now)
  }

  function Remembered(nonces: map<Nonce, int>, r: Request): map<Nonce, int> {
    if !InWindow(r) || !r.signed then nonces
    else if Accepts(nonces, r) then Unexpired(nonces, r.now)[r.nonce := r.now + REPLAY_WINDOW]
    else Unexpired(nonces, r.now)
  }

  class Relay {
    var nonces: map<Nonce, int>

    constructor ()
      ensures nonces == map[]
    {
      nonces := map[];
    }

    method Authenticate(r: Request) returns (accepted: bool)
      modifies this
      ensures accepted <==> Accepts(old(nonces), r)
      ensures nonces == Remembered(old(nonces), r)
    {
      if r.timestamp < r.now - MAX_CLOCK_SKEW || r.timestamp > r.now + MAX_CLOCK_SKEW { return false; }
      if !r.signed { return false; }
      var todo := nonces.Keys;
      while todo != {}
        invariant todo <= nonces.Keys <= old(nonces.Keys)
        invariant forall key :: key in nonces ==> nonces[key] == old(nonces)[key]
        invariant forall key :: key in old(nonces) && key !in todo ==> (key in nonces <==> old(nonces)[key] > r.now)
        decreases todo
      {
        var key :| key in todo;
        todo := todo - {key};
        if nonces[key] <= r.now { nonces := nonces - {key}; }
      }
      assert nonces == Unexpired(old(nonces), r.now);
      if r.nonce in nonces { return false; }
      nonces := nonces[r.nonce := r.now + REPLAY_WINDOW];
      accepted := true;
    }
  }

  /** A request that is not signed or not in time is refused before the nonces are looked at. */
  lemma StrangersChangeNothing(nonces: map<Nonce, int>, r: Request)
    requires !r.signed || r.timestamp < r.now - 90_000_000_000 || r.timestamp > r.now + 90_000_000_000
    ensures !Accepts(nonces, r) && Remembered(nonces, r) == nonces
  {
  }

  // ---- over a whole run ---------------------------------------------------------------------

  function NoncesAfter(requests: seq<Request>): map<Nonce, int> {
    if requests == [] then map[] else Remembered(NoncesAfter(requests[..|requests| - 1]), requests[|requests| - 1])
  }

  /** Request i of the run was accepted. */
  predicate Accepted(requests: seq<Request>, i: nat)
    requires i < |requests|
  {
    Accepts(NoncesAfter(requests[..i]), requests[i])
  }

  predicate ClockNeverBack(requests: seq<Request>) {
    forall i, j :: 0 <= i < j < |requests| ==> requests[i].now <= requests[j].now
  }

  /** An accepted nonce stays on file, with its expiry or a later one, until the clock reaches it. */
  lemma {:induction false} NonceIsKept(requests: seq<Request>, i: nat)
    requires ClockNeverBack(requests) && i < |requests| && Accepted(requests, i)
    ensures var nonces, first := NoncesAfter(requests), requests[i];
      || requests[|requests| - 1].now >= first.now + REPLAY_WINDOW
      || (first.nonce in nonces && nonces[first.nonce] >= first.now + REPLAY_WINDOW)
  {
    var n := |requests| - 1;
    if i < n {
      var earlier := requests[..n];
      assert earlier[..i] == requests[..i] && earlier[i] == requests[i] && earlier[n - 1] == requests[n - 1];
      NonceIsKept(earlier, i);
    }
  }

  /** An earlier request with this nonce was accepted less than three minutes before `now`. */
  ghost predicate UsedRecently(requests: seq<Request>, n: nat, nonce: Nonce, now: int)
    requires n <= |requests|
  {
    exists j :: 0 <= j < n && Accepted(requests, j) && requests[j].nonce == nonce
                && now < requests[j].now + 180_000_000_000
  }

  /** What is on file and unexpired are the nonces accepted recently: nothing is forgotten, nothing kept too long. */
  lemma {:induction false} OnFileIffUsedRecently(requests: seq<Request>, n: nat, nonce: Nonce, now: int)
    requires ClockNeverBack(requests) && n <= |requests| && (n > 0 ==> requests[n - 1].now <= now)
    ensures nonce in Unexpired(NoncesAfter(requests[..n]), now) <==> UsedRecently(requests, n, nonce, now)
  {
    if n > 0 {
      assert requests[..n][..n - 1] == requests[..n - 1];
      OnFileIffUsedRecently(requests, n - 1, nonce, now);
      if Accepted(requests, n - 1) && requests[n - 1].nonce == nonce {
        assert forall j :: 0 <= j < n ==> requests[j].now <= requests[n - 1].now;
      }
    }
  }

  /**
   Over a whole run: a request is accepted exactly if it is signed, its timestamp is at most ninety
   seconds off the relay's clock either way, and its nonce was not accepted in the last three minutes.
   */
  lemma AcceptedIff(requests: seq<Request>, i: nat)
    requires ClockNeverBack(requests) && i < |requests|
    ensures var r := requests[i];
      Accepted(requests, i) <==>
        && r.signed && -90_000_000_000 <= r.timestamp - r.now <= 90_000_000_000
        && !UsedRecently(requests, i, r.nonce, r.now)
  {
    OnFileIffUsedRecently(requests, i, requests[i].nonce, requests[i].now);
  }

  /**
   The same timestamp and nonce are accepted a second time only at the one instant that is
   both the end of the replay window and the end of the timestamp's validity: the first
   acceptance came exactly the allowed skew before the timestamp.
   */
  lemma ReplayOnlyAtTheLimit(requests: seq<Request>, i: nat, j: nat)
    requires ClockNeverBack(requests) && i < j < |requests|
    requires Accepted(requests, i) && Accepted(requests, j)
    requires requests[i].nonce == requests[j].nonce && requests[i].timestamp == requests[j].timestamp
    ensures requests[i].timestamp == requests[i].now + MAX_CLOCK_SKEW
    ensures requests[j].now == requests[i].now + REPLAY_WINDOW
  {
    var before := requests[..j];
    assert before[..i] == requests[..i] && before[i] == requests[i] && before[j - 1] == requests[j - 1];
    NonceIsKept(before, i);
  }

  /** And there it is accepted: the retention ends at the very instant the timestamp is still valid. */
  lemma SecondAcceptanceIff(nonces: map<Nonce, int>, first: Request, now: int)
    requires Accepts(nonces, first) && first.now <= now
    ensures Accepts(Remembered(nonces, first), first.(now := now))
       <==> first.timestamp == first.now + MAX_CLOCK_SKEW && now == first.now + REPLAY_WINDOW
  {
  }
}
