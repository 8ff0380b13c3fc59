/**
 The worker's variant of the lease: one key per task name, claimed with an expiry and never released,
 so that one scheduler runs each tick.  When the store is down the task runs without it.
 */
module PeriodicLock {
  import opened Wrappers

  /** When each claimed name becomes free again. */
  type Ticks = map<string, int>

  predicate Claimed(ticks: Ticks, name: string, now: int) {
    name in ticks && now < ticks[name]
  }

  class TickStore {
    var ticks: Ticks

    constructor ()
      ensures ticks == map[]
    {
      ticks := map[];
    }

    /** `up` says that the store answers; `took` that an unanswered command was carried out all the same. */
    method Acquire(name: string, ttlSeconds: nat, up: bool, took: bool, now: int) returns (run: bool)
      modifies this
      ensures run == (!up || !Claimed(old(ticks), name, now))
      ensures ticks == if !Claimed(old(ticks), name, now) && (up || took)
                       then old(ticks)[name := now + 1000 * ttlSeconds] else old(ticks)
    {
      var free := !(name in ticks && now < ticks[name]);
      if free && (up || took) {
        ticks := ticks[name := now + 1000 * ttlSeconds];
      }
      run := !up || free;
    }

    /** The wrapped call: the body's value, or nothing when another scheduler holds the tick. */
    method OncePerTick<T>(name: string, ttlSeconds: nat, up: bool, took: bool, body: T, now: int) returns (value: Option<T>)
      modifies this
      ensures value == if !up || !Claimed(old(ticks), name, now) then Some(body) else None
    {
      var run := Acquire(name, ttlSeconds, up, took, now);
      value := if run then Some(body) else None;
    }
  }

  // ---------- Any number of schedulers ----------

  datatype Claim = Claim(name: string, ttlSeconds: nat, up: bool, took: bool, at: int)

  function AfterClaim(ticks: Ticks, c: Claim): Ticks {
    if !Claimed(ticks, c.name, c.at) && (c.up || c.took) then ticks[c.name := c.at + 1000 * c.ttlSeconds] else ticks
  }

  function After(claims: seq<Claim>): Ticks
    decreases |claims|
  {
    if claims == [] then map[]
    else AfterClaim(After(claims[..|claims| - 1]), claims[|claims| - 1])
  }

  /** Claim `i` was answered, and won. */
  ghost predicate Wins(claims: seq<Claim>, i: nat) {
    i < |claims| && claims[i].up && !Claimed(After(claims[..i]), claims[i].name, claims[i].at)
  }

  ghost predicate InOrder(claims: seq<Claim>) {
    forall i, j :: 0 <= i <= j < |claims| ==> claims[i].at <= claims[j].at
  }

  /** A won tick stays claimed for its whole TTL, because nothing releases it. */
  lemma {:induction false} StaysClaimed(claims: seq<Claim>, i: nat, n: nat, now: int)
    requires InOrder(claims) && Wins(claims, i) && i < n <= |claims|
    requires claims[n - 1].at <= now < claims[i].at + 1000 * claims[i].ttlSeconds
    ensures Claimed(After(claims[..n]), claims[i].name, now)
    decreases n
  {
    assert claims[..n][..n - 1] == claims[..n - 1];
    if n > i + 1 {
      assert claims[n - 2].at <= claims[n - 1].at;
      StaysClaimed(claims, i, n - 1, now);
      StaysClaimed(claims, i, n - 1, claims[n - 1].at);
    }
  }

  /** Two answered wins of one name are at least the earlier one's TTL apart. */
  lemma WinsAreTtlApart(claims: seq<Claim>, i: nat, j: nat)
    requires InOrder(claims) && i < j
    requires Wins(claims, i) && Wins(claims, j) && claims[i].name == claims[j].name
    ensures claims[i].at + 1000 * claims[i].ttlSeconds <= claims[j].at
  {
    if claims[j].at < claims[i].at + 1000 * claims[i].ttlSeconds {
      StaysClaimed(claims, i, j, claims[j].at);
    }
  }
}
