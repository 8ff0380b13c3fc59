/**
 Weighted rate-limit counters: a fixed window per key in a shared store, whose script may extend the
 window of a caller who is over the limit, and an in-process fallback for when the store is down.
 */
module Throttler {
  import opened Arithmetic
  import opened Wrappers

  datatype Counter = Counter(hits: int, expiresAt: int)

  datatype Settings = Settings(ttl: int, limit: int, block: int)

  predicate Live(c: Option<Counter>, now: int) {
    c.Some? && now < c.value.expiresAt
  }

  /** The store's script, one atomic step: count, open the window on the first hit, extend it when blocked. */
  function Increment(c: Option<Counter>, settings: Settings, cost: int, now: int): Counter {
    var hits := (if Live(c, now) then c.value.hits else 0) + cost;
    var expiresAt := if hits <= cost then now + settings.ttl else c.value.expiresAt;
    if hits > settings.limit && settings.block > expiresAt - now
    then Counter(hits, now + settings.block)
    else Counter(hits, expiresAt)
  }

  /** The in-process counter, which has no block extension. */
  function Bump(c: Option<Counter>, settings: Settings, cost: int, now: int): Counter {
    if c.None? || c.value.expiresAt <= now then Counter(cost, now + settings.ttl)
    else Counter(c.value.hits + cost, c.value.expiresAt)
  }

  /** The fallback counts exactly as the script does without a block duration. */
  lemma FallbackCountsAlike(c: Option<Counter>, settings: Settings, cost: int, now: int)
    requires 0 < cost && 0 < settings.ttl
    requires c.Some? ==> 0 < c.value.hits
    ensures Bump(c, settings, cost, now) == Increment(c, settings.(block := 0), cost, now)
  {
  }

  predicate Blocked(c: Counter, settings: Settings) {
    c.hits > settings.limit
  }

  datatype Record = Record(totalHits: int, timeToExpire: int, isBlocked: bool)

  class RedisThrottlerStorage {
    var store: map<string, Counter>
    var memory: map<string, Counter>
    var warned: bool

    constructor ()
      ensures store == map[] && memory == map[] && !warned
    {
      store, memory, warned := map[], map[], false;
    }

    /** `down` says the store cannot be reached. */
    method IncrementBy(key: string, settings: Settings, cost: int, down: bool, now: int) returns (record: Record)
      modifies this
      ensures !down ==>
                && var c := Increment(Lookup(old(store), key), settings, Max(1, cost), now);
                   && store == old(store)[key := c]
                   && memory == old(memory) && warned == old(warned)
                   && record == Record(c.hits, CeilSeconds(Max(0, c.expiresAt - now)), Blocked(c, settings))
      ensures down ==>
                && var c := Bump(Lookup(old(memory), key), settings, Max(1, cost), now);
                   && memory == old(memory)[key := c]
                   && store == old(store) && warned
                   && record == Record(c.hits, CeilSeconds(c.expiresAt - now), Blocked(c, settings))
    {
      if down {
        record := OnStorageFailure(key, settings, cost, now);
        return;
      }
      var live := key in store && now < store[key].expiresAt;
      var hits := (if live then store[key].hits else 0) + Max(1, cost);
      var expiresAt := if live then store[key].expiresAt else now;
      if hits <= Max(1, cost) {
        expiresAt := now + settings.ttl;
      }
      var blocked := hits > settings.limit;
      if blocked && settings.block > expiresAt - now {
        expiresAt := now + settings.block;
      }
      store := store[key := Counter(hits, expiresAt)];
      record := Record(hits, CeilSeconds(Max(0, expiresAt - now)), blocked);
    }

    /** Degrade to per-process counting, and say so once. */
    method OnStorageFailure(key: string, settings: Settings, cost: int, now: int) returns (record: Record)
      modifies this`memory, this`warned
      ensures warned
      ensures key in memory && memory == old(memory)[key := memory[key]]
      ensures if Live(Lookup(old(memory), key), now)
              then memory[key].expiresAt == old(memory)[key].expiresAt && memory[key].hits - old(memory)[key].hits == Max(1, cost)
              else memory[key].expiresAt == now + settings.ttl && memory[key].hits == Max(1, cost)
      ensures record.totalHits == memory[key].hits && (record.isBlocked <==> memory[key].hits > settings.limit)
      ensures 1000 * (record.timeToExpire - 1) < memory[key].expiresAt - now <= 1000 * record.timeToExpire
    {
      warned := true;
      var c := Bump(Lookup(memory, key), settings, Max(1, cost), now);
      memory := memory[key := c];
      record := Record(c.hits, CeilSeconds(c.expiresAt - now), c.hits > settings.limit);
    }
  }

  // ---------- Runs on one key ----------

  datatype Attempt = Attempt(cost: int, at: int)

  ghost predicate Valid(settings: Settings, attempts: seq<Attempt>) {
    && 0 < settings.ttl && 0 <= settings.limit
    && (forall i :: 0 <= i < |attempts| ==> 0 < attempts[i].cost)
    && (forall i, j :: 0 <= i <= j < |attempts| ==> attempts[i].at <= attempts[j].at)
  }

  /** The counter after a run, with the start of its current lifetime and what that lifetime admitted. */
  datatype Life = Life(counter: Counter, start: int, admitted: int)

  function CounterOf(life: Option<Life>): Option<Counter> {
    if life.Some? then Some(life.value.counter) else None
  }

  function AfterAttempt(life: Option<Life>, settings: Settings, a: Attempt): Life {
    var live := Live(CounterOf(life), a.at);
    var c := Increment(CounterOf(life), settings, a.cost, a.at);
    var spent := if Blocked(c, settings) then 0 else a.cost;
    Life(c, if live then life.value.start else a.at, (if live then life.value.admitted else 0) + spent)
  }

  function After(settings: Settings, attempts: seq<Attempt>): Option<Life>
    decreases |attempts|
  {
    if attempts == [] then None
    else Some(AfterAttempt(After(settings, attempts[..|attempts| - 1]), settings, attempts[|attempts| - 1]))
  }

  /** Whether the last attempt of the run was let through. */
  function LastAdmitted(settings: Settings, attempts: seq<Attempt>): bool
    requires attempts != []
  {
    !Blocked(After(settings, attempts).value.counter, settings)
  }

  /** The cost admitted at moments in `[from, to)`. */
  function AdmittedWithin(settings: Settings, attempts: seq<Attempt>, from: int, to: int): int
    decreases |attempts|
  {
    if attempts == [] then 0
    else
      var last := attempts[|attempts| - 1];
      AdmittedWithin(settings, attempts[..|attempts| - 1], from, to) +
      (if from <= last.at < to && LastAdmitted(settings, attempts) then last.cost else 0)
  }

  ghost predicate LifeInv(settings: Settings, life: Life) {
    && 0 < life.counter.hits
    && 0 <= life.admitted <= life.counter.hits
    && life.admitted <= settings.limit
    && life.start + settings.ttl <= life.counter.expiresAt
  }

  /** Within one lifetime of the key, block extensions included, at most the limit is admitted. */
  lemma {:induction false} LifetimeBound(settings: Settings, attempts: seq<Attempt>)
    requires Valid(settings, attempts) && attempts != []
    ensures LifeInv(settings, After(settings, attempts).value)
    ensures After(settings, attempts).value.start <= attempts[|attempts| - 1].at
    decreases |attempts|
  {
    if |attempts| > 1 {
      LifetimeBound(settings, attempts[..|attempts| - 1]);
    }
  }

  lemma {:induction false} NothingBefore(settings: Settings, attempts: seq<Attempt>, from: int, to: int)
    requires forall i :: 0 <= i < |attempts| ==> attempts[i].at < from
    ensures AdmittedWithin(settings, attempts, from, to) == 0
    decreases |attempts|
  {
    if attempts != [] {
      NothingBefore(settings, attempts[..|attempts| - 1], from, to);
    }
  }

  /** What has been admitted in `[from, from + ttl)`, by where the current lifetime began. */
  ghost predicate WindowInv(settings: Settings, attempts: seq<Attempt>, from: int) {
    var admitted := AdmittedWithin(settings, attempts, from, from + settings.ttl);
    var life := After(settings, attempts);
    if life.None? then admitted == 0
    else if life.value.start < from then admitted <= life.value.admitted
    else if life.value.start < from + settings.ttl then admitted <= settings.limit + life.value.admitted
    else admitted <= 2 * settings.limit
  }

  lemma {:induction false} WindowStep(settings: Settings, attempts: seq<Attempt>, from: int)
    requires Valid(settings, attempts)
    ensures WindowInv(settings, attempts, from)
    decreases |attempts|
  {
    if attempts != [] {
      var before := attempts[..|attempts| - 1];
      WindowStep(settings, before, from);
      LifetimeBound(settings, attempts);
      if before != [] {
        LifetimeBound(settings, before);
      }
      if attempts[|attempts| - 1].at < from {
        NothingBefore(settings, attempts, from, from + settings.ttl);
      }
    }
  }

  /** In any half-open interval of one window length, at most twice the limit is admitted. */
  lemma AnyWindowBound(settings: Settings, attempts: seq<Attempt>, from: int)
    requires Valid(settings, attempts)
    ensures AdmittedWithin(settings, attempts, from, from + settings.ttl) <= 2 * settings.limit
  {
    WindowStep(settings, attempts, from);
    if attempts != [] {
      LifetimeBound(settings, attempts);
    }
  }

  // ---------- Replicas on their own ----------

  /** What the current counter windows of all replicas have admitted together. */
  function AdmittedNow(settings: Settings, runs: seq<seq<Attempt>>): int {
    if runs == [] then 0
    else (if runs[0] == [] then 0 else After(settings, runs[0]).value.admitted) + AdmittedNow(settings, runs[1..])
  }

  function AdmittedByAll(settings: Settings, runs: seq<seq<Attempt>>, from: int): int {
    if runs == [] then 0
    else AdmittedWithin(settings, runs[0], from, from + settings.ttl) + AdmittedByAll(settings, runs[1..], from)
  }

  lemma OneMore(n: nat, limit: int)
    requires n > 0
    ensures n * limit == limit + (n - 1) * limit
  {
  }

  /** Replicas that each count one window of their own admit together at most N times the limit. */
  lemma {:induction false} FallbackBound(settings: Settings, runs: seq<seq<Attempt>>)
    requires settings.block == 0
    requires forall r :: r in runs ==> Valid(settings, r)
    ensures AdmittedNow(settings, runs) <= |runs| * settings.limit
  {
    if runs != [] {
      assert runs[0] in runs && forall r :: r in runs[1..] ==> r in runs;
      FallbackBound(settings, runs[1..]);
      OneMore(|runs|, settings.limit);
      if runs[0] != [] {
        LifetimeBound(settings, runs[0]);
      }
    }
  }

  /** And at most 2N times the limit in any interval of one window length. */
  lemma {:induction false} FallbackWindowBound(settings: Settings, runs: seq<seq<Attempt>>, from: int)
    requires settings.block == 0
    requires forall r :: r in runs ==> Valid(settings, r)
    ensures AdmittedByAll(settings, runs, from) <= |runs| * (2 * settings.limit)
  {
    if runs != [] {
      assert runs[0] in runs && forall r :: r in runs[1..] ==> r in runs;
      FallbackWindowBound(settings, runs[1..], from);
      OneMore(|runs|, 2 * settings.limit);
      AnyWindowBound(settings, runs[0], from);
    }
  }
}
