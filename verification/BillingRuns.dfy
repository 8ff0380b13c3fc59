/**
 Serialised runs of the billing code on one instance: every request, webhook and sweep is one step
 at the clock's current reading.  The run theorems are about any sequence of such steps.
 */
module BillingRuns {
  import opened Wrappers
  import opened Subscriptions
  import opened WorkspaceAccess
  import opened Payments

  /** One applied one-off payment: the interval of access it added. */
  datatype Grant = Grant(orgId: OrgId, reference: string, from: int, until: int, at: int)

  /** `named` holds every workspace id seen so far, so that a new id can be fresh. */
  datatype State = State(
    orgs: Organizations,
    plans: set<string>,
    ledger: Ledger,
    cache: Cache,
    clock: int,
    named: set<OrgId>,
    grants: seq<Grant>)

  datatype Event =
    | Wait(ms: nat)
    | Register(orgId: OrgId, slug: string)
    | StartTrial(orgId: OrgId)
    | Ask(orgId: OrgId)
    | Pay(payment: Payment, aborts: bool)
    | CancelCode(code: string, picked: OrgId)
    /** A sweep that stops with an error after `done` statements; 4 is a sweep that completes. */
    | RunSweep(batch: set<OrgId>, done: nat)

  ghost predicate Init(s: State) {
    s.orgs == map[] && s.ledger == map[] && s.cache == map[] && s.named == {} && s.grants == []
  }

  ghost predicate Enabled(s: State, e: Event) {
    match e
    case Register(orgId, _) => orgId !in s.named
    case CancelCode(code, picked) => Holders(s.orgs, code) != {} ==> picked in Holders(s.orgs, code)
    case RunSweep(batch, done) => done <= 4 && IsBatch(s.orgs, batch)
    case _ => true
  }

  function GrantOf(s: State, p: Payment): Grant
    requires WellFormed(p) && p.orgId.value in s.orgs
  {
    var from := MonthStart(PeriodEnd(s.orgs[p.orgId.value].subscription), s.clock);
    Grant(p.orgId.value, p.reference.value, from, from + ONE_MONTH_MS, s.clock)
  }

  function Paid(s: State, p: Payment, aborts: bool): State {
    var outcome := OutcomeOf(s.orgs, s.plans, s.ledger, p, s.clock, aborts);
    if !outcome.Applied? then s.(named := s.named + (if p.orgId.Some? then {p.orgId.value} else {}))
    else
      s.(orgs := OrgsAfter(s.orgs, s.plans, s.ledger, p, s.clock, aborts),
         ledger := LedgerAfter(s.orgs, s.plans, s.ledger, p, s.clock, aborts),
         cache := s.cache - {p.orgId.value},
         grants := if p.once then s.grants + [GrantOf(s, p)] else s.grants)
  }

  function Next(s: State, e: Event): State {
    match e
    case Wait(ms) => s.(clock := s.clock + ms)
    case Register(orgId, slug) =>
      s.(orgs := s.orgs[orgId := Organization(slug, None)], named := s.named + {orgId})
    case StartTrial(orgId) =>
      s.(orgs := AfterStartTrial(s.orgs, s.plans, orgId, s.clock),
         cache := if "PRO" in s.plans && orgId in s.orgs then s.cache - {orgId} else s.cache,
         named := s.named + {orgId})
    case Ask(orgId) =>
      s.(cache := CacheAfter(s.cache, s.orgs, orgId, s.clock), named := s.named + {orgId})
    case Pay(p, aborts) => Paid(s, p, aborts)
    case CancelCode(code, picked) =>
      s.(orgs := AfterCancel(s.orgs, code, picked),
         cache := if code != "" && picked in Holders(s.orgs, code) then s.cache - {picked} else s.cache)
    case RunSweep(batch, done) =>
      var orgs := AfterStatements(s.orgs, s.plans, batch, s.clock, done);
      s.(orgs := orgs, cache := if done >= 4 && orgs != s.orgs then map[] else s.cache)
  }

  /** `s'` is reached from `s` by the events in order. */
  ghost predicate Run(s: State, events: seq<Event>, s': State)
    decreases |events|
  {
    if events == [] then s' == s
    else Enabled(s, events[0]) && Run(Next(s, events[0]), events[1..], s')
  }

  // ---------- The cache agrees with the specification ----------

  ghost predicate EntryExact(s: State, orgId: OrgId, t: int)
    requires orgId in s.cache
  {
    s.clock <= t < s.cache[orgId].expiresAt ==> Decide(Lookup(s.orgs, orgId), t) == s.cache[orgId].value
  }

  /** Every entry still in its lifetime already holds the answer for the rest of that lifetime. */
  ghost predicate CacheExact(s: State) {
    && s.cache.Keys <= s.named
    && s.orgs.Keys <= s.named
    && (forall o :: o in s.cache && s.cache[o].value.trialEndsAt.Some? ==>
          s.cache[o].expiresAt <= s.cache[o].value.trialEndsAt.value)
    && forall o, t :: o in s.cache ==> EntryExact(s, o, t)
  }

  /** A decision that is the same at `now` and at `t` survives any prefix of a sweep before the backfill. */
  lemma StatementsKeepDecision(orgs: Organizations, plans: set<string>, batch: set<OrgId>, now: int, done: nat, o: OrgId, t: int)
    requires o in orgs && done <= 3 && now <= t
    requires Decide(Some(orgs[o]), now) == Decide(Some(orgs[o]), t)
    requires !IsExpiredTrial(orgs[o], now)
    ensures Decide(Lookup(AfterStatements(orgs, plans, batch, now, done), o), t) == Decide(Some(orgs[o]), t)
  {
    var one := SetStatus(orgs, ExpiredTrials(orgs, now), PAST_DUE);
    var two := SetStatus(one, LapsedMonths(one, now), PAST_DUE);
    assert o in ExpiredTrials(orgs, now) <==> IsExpiredTrial(orgs[o], now);
    assert o in LapsedMonths(one, now) <==> IsLapsedMonth(one[o], now);
    assert o in UncompedExempt(two) <==> IsUncomped(two[o]);
  }

  /** Even a sweep that fails half way leaves every live entry right, although nothing clears the cache. */
  lemma PartialSweepKeepsEntry(s: State, batch: set<OrgId>, done: nat, o: OrgId, t: int)
    requires CacheExact(s) && o in s.cache && done <= 3
    requires s.clock <= t < s.cache[o].expiresAt
    ensures Decide(Lookup(AfterStatements(s.orgs, s.plans, batch, s.clock, done), o), t) == s.cache[o].value
  {
    assert EntryExact(s, o, t) && EntryExact(s, o, s.clock);
    if o in s.orgs {
      StatementsKeepDecision(s.orgs, s.plans, batch, s.clock, done, o, t);
    }
  }

  lemma CacheExactStep(s: State, e: Event)
    requires CacheExact(s) && Enabled(s, e)
    ensures CacheExact(Next(s, e))
  {
    var s' := Next(s, e);
    forall o, t | o in s'.cache && s'.clock <= t < s'.cache[o].expiresAt
      ensures Decide(Lookup(s'.orgs, o), t) == s'.cache[o].value
    {
      if e.Ask? && o == e.orgId && !Hit(s.cache, o, s.clock) {
        DecisionStableUntilExpiry(Lookup(s.orgs, o), s.clock, t);
      } else {
        assert EntryExact(s, o, t);
        if e.RunSweep? && e.done <= 3 {
          PartialSweepKeepsEntry(s, e.batch, e.done, o, t);
        }
      }
    }
  }

  lemma {:induction false} CacheExactRun(s: State, events: seq<Event>, s': State)
    requires CacheExact(s) && Run(s, events, s')
    ensures CacheExact(s')
    decreases |events|
  {
    if events != [] {
      CacheExactStep(s, events[0]);
      CacheExactRun(Next(s, events[0]), events[1..], s');
    }
  }

  /** In every serialised run on one instance, the answer at any moment is the decision on the row at that moment. */
  lemma CachedAnswerIsExact(start: State, events: seq<Event>, s: State, orgId: OrgId)
    requires Init(start) && Run(start, events, s)
    ensures Answer(s.cache, s.orgs, orgId, s.clock) == Decide(Lookup(s.orgs, orgId), s.clock)
  {
    CacheExactRun(start, events, s);
    if orgId in s.cache {
      assert EntryExact(s, orgId, s.clock);
    }
  }
}
