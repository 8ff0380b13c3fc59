/**
 A job that runs on one replica at a time: a lease with a TTL in a shared store, taken with SET NX PX
 and given back by compare-and-delete.
 */
module LeaderLock {
  import opened Wrappers

  type Token = nat

  datatype Lease = Lease(token: Token, expiresAt: int)

  type Leases = map<string, Lease>

  predicate Held(leases: Leases, key: string, now: int) {
    key in leases && now < leases[key].expiresAt
  }

  function CompareAndDelete(leases: Leases, key: string, token: Token, now: int): Leases {
    if Held(leases, key, now) && leases[key].token == token then leases - {key} else leases
  }

  class LockStore {
    var leases: Leases

    constructor ()
      ensures leases == map[]
    {
      leases := map[];
    }

    method SetIfAbsent(key: string, token: Token, ttlMs: int, now: int) returns (ok: bool)
      modifies this
      ensures ok == !Held(old(leases), key, now)
      ensures leases == if ok then old(leases)[key := Lease(token, now + ttlMs)] else old(leases)
    {
      if key in leases && now < leases[key].expiresAt {
        return false;
      }
      leases := leases[key := Lease(token, now + ttlMs)];
      return true;
    }

    method DeleteIfEquals(key: string, token: Token, now: int)
      modifies this
      ensures leases == CompareAndDelete(old(leases), key, token, now)
    {
      if key in leases && now < leases[key].expiresAt && leases[key].token == token {
        leases := leases - {key};
      }
    }

    /**
     The job runs from `now` to `end` and may throw; `meanwhile` is what the store then holds, others
     having used it.  An exception is passed on after the release.
     */
    method RunExclusively(name: string, token: Token, ttlMs: int, reachable: bool, throws: bool, releases: bool, meanwhile: Leases, now: int, end: int)
        returns (ran: bool, raised: bool)
      modifies this
      ensures ran == (reachable && !Held(old(leases), "lock:" + name, now))
      ensures raised == (ran && throws)
      ensures leases == if !ran then old(leases)
                        else if releases then CompareAndDelete(meanwhile, "lock:" + name, token, end)
                        else meanwhile
    {
      if !reachable {
        return false, false; // without the coordinator the job is skipped, not run everywhere
      }
      var acquired := SetIfAbsent("lock:" + name, token, ttlMs, now);
      if !acquired {
        return false, false;
      }
      leases := meanwhile;
      if releases {
        DeleteIfEquals("lock:" + name, token, end);
      }
      return true, throws;
    }
  }

  // ---------- Any number of replicas, one job name ----------

  datatype Job = Job(token: Token, ttl: nat, start: int, end: Option<int>)

  datatype State = State(lease: Option<Lease>, jobs: seq<Job>, seen: set<Token>, clock: int)

  datatype Event =
    | Wait(ms: nat)
    /** `answered` is false when the store took the lease but its answer was lost: the job is skipped. */
    | Acquire(token: Token, ttl: nat, answered: bool)
    | Finish(job: nat)
    /** The release of a finished job, at any time after it, or never. */
    | Release(job: nat)

  predicate Free(s: State) {
    s.lease.None? || s.lease.value.expiresAt <= s.clock
  }

  ghost predicate Init(s: State) {
    s.lease == None && s.jobs == []
  }

  ghost predicate Enabled(s: State, e: Event) {
    match e
    case Wait(_) => true
    case Acquire(token, _, _) => token !in s.seen
    case Finish(i) => i < |s.jobs| && s.jobs[i].end.None?
    case Release(i) => i < |s.jobs| && s.jobs[i].end.Some?
  }

  function Next(s: State, e: Event): State {
    match e
    case Wait(ms) => s.(clock := s.clock + ms)
    case Acquire(token, ttl, answered) =>
      var named := s.(seen := s.seen + {token});
      if !Free(s) then named
      else
        var leased := named.(lease := Some(Lease(token, s.clock + ttl)));
        if answered then leased.(jobs := s.jobs + [Job(token, ttl, s.clock, None)]) else leased
    case Finish(i) => if i < |s.jobs| then s.(jobs := s.jobs[i := s.jobs[i].(end := Some(s.clock))]) else s
    case Release(i) =>
      if i < |s.jobs| && !Free(s) && s.lease.value.token == s.jobs[i].token then s.(lease := None) else s
  }

  ghost predicate Run(s: State, events: seq<Event>, s': State)
    decreases |events|
  {
    if events == [] then s' == s
    else Enabled(s, events[0]) && Run(Next(s, events[0]), events[1..], s')
  }

  ghost predicate Overlap(a: Job, b: Job) {
    a.start <= b.start && (a.end.None? || b.start < a.end.value)
  }

  ghost predicate Overran(a: Job, at: int) {
    a.start + a.ttl <= at
  }

  ghost predicate Holds(s: State, job: Job) {
    s.lease == Some(Lease(job.token, job.start + job.ttl))
  }

  ghost predicate JobsInv(s: State) {
    && (s.lease.Some? ==> s.lease.value.token in s.seen)
    && (forall i :: 0 <= i < |s.jobs| ==>
          && s.jobs[i].token in s.seen && s.jobs[i].start <= s.clock
          && (s.jobs[i].end.Some? ==> s.jobs[i].end.value <= s.clock))
    && (forall i, j :: 0 <= i < j < |s.jobs| ==> s.jobs[i].token != s.jobs[j].token)
  }

  /** A job within its TTL holds the lease, whoever releases what. */
  ghost predicate RunnersHold(s: State) {
    forall i :: 0 <= i < |s.jobs| && s.jobs[i].end.None? && !Overran(s.jobs[i], s.clock) ==> Holds(s, s.jobs[i])
  }

  ghost predicate OverlapsOverran(jobs: seq<Job>) {
    forall i, j :: 0 <= i < j < |jobs| && Overlap(jobs[i], jobs[j]) ==> Overran(jobs[i], jobs[j].start)
  }

  ghost predicate Inv(s: State) {
    JobsInv(s) && RunnersHold(s) && OverlapsOverran(s.jobs)
  }

  /** When the lease is free, every job so far is over or has outlived its TTL. */
  lemma AcquireKeepsInv(s: State, token: Token, ttl: nat, answered: bool)
    requires Inv(s) && Enabled(s, Acquire(token, ttl, answered))
    ensures Inv(Next(s, Acquire(token, ttl, answered)))
  {
    var s' := Next(s, Acquire(token, ttl, answered));
    forall i, j | 0 <= i < j < |s'.jobs| && Overlap(s'.jobs[i], s'.jobs[j])
      ensures Overran(s'.jobs[i], s'.jobs[j].start)
    {
      if j == |s.jobs| {
        assert s'.jobs[i] == s.jobs[i];
      }
    }
  }

  /** Finishing a job can only undo overlaps. */
  lemma FinishKeepsInv(s: State, n: nat)
    requires Inv(s) && Enabled(s, Finish(n))
    ensures Inv(Next(s, Finish(n)))
  {
    var s' := Next(s, Finish(n));
    forall i, j | 0 <= i < j < |s'.jobs| && Overlap(s'.jobs[i], s'.jobs[j])
      ensures Overran(s'.jobs[i], s'.jobs[j].start)
    {
      assert Overlap(s.jobs[i], s.jobs[j]);
    }
  }

  lemma InvStep(s: State, e: Event)
    requires Inv(s) && Enabled(s, e)
    ensures Inv(Next(s, e))
  {
    match e
    case Acquire(token, ttl, answered) => AcquireKeepsInv(s, token, ttl, answered);
    case Finish(n) => FinishKeepsInv(s, n);
    case _ =>
  }

  lemma {:induction false} InvRun(s: State, events: seq<Event>, s': State)
    requires Inv(s) && Run(s, events, s')
    ensures Inv(s')
    decreases |events|
  {
    if events != [] {
      InvStep(s, events[0]);
      InvRun(Next(s, events[0]), events[1..], s');
    }
  }

  /** Two jobs of one name overlap only if the earlier one had outlived its TTL when the later one began. */
  lemma OverlapMeansOverrun(start: State, events: seq<Event>, s: State, i: nat, j: nat)
    requires Init(start) && Run(start, events, s)
    requires i < j < |s.jobs| && Overlap(s.jobs[i], s.jobs[j])
    ensures s.jobs[i].start + s.jobs[i].ttl <= s.jobs[j].start
  {
    InvRun(start, events, s);
  }

  /** A late release, of any other job, never takes the lease of a job that is running within its TTL. */
  lemma ReleaseSparesOthers(start: State, events: seq<Event>, s: State, late: nat, running: nat)
    requires Init(start) && Run(start, events, s) && Enabled(s, Release(late))
    requires running < |s.jobs| && s.jobs[running].end.None? && s.clock < s.jobs[running].start + s.jobs[running].ttl
    ensures Holds(s, s.jobs[running]) && Holds(Next(s, Release(late)), s.jobs[running])
  {
    InvRun(start, events, s);
    assert late != running;
  }
}
