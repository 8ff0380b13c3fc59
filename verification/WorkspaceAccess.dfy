/**
 Who may write, and for how much longer: the timed decision, its cache, and the sweep that
 records what the clock already says.
 */
module WorkspaceAccess {
  import opened Arithmetic
  import opened Wrappers
  import opened Subscriptions

  const CACHE_TTL_MS: int := 30_000

  /** Orphans handled per sweep. */
  const BACKFILL_BATCH: nat := 500

  datatype AccessStatus = OnTrial | Paying | Exempt | Locked

  datatype Access = Access(status: AccessStatus, locked: bool, trialEndsAt: Option<int>, planCode: Option<string>)

  datatype CacheEntry = CacheEntry(expiresAt: int, value: Access)

  type Cache = map<OrgId, CacheEntry>

  datatype SweepResult = SweepResult(expired: nat, lapsed: nat, backfilled: nat, comped: nat)

  // ---------- The decision ----------

  /** An empty code is falsy in the service, so it counts as no card at all. */
  predicate NoCard(code: Option<string>) {
    code.None? || code.value == ""
  }

  predicate Ended(periodEnd: Option<int>, now: int) {
    periodEnd.Some? && periodEnd.value <= now
  }

  function Decide(org: Option<Organization>, now: int): Access {
    if org.None? then
      Access(Paying, false, None, None)
    else if IsExempt(org.value.slug) then
      Access(Exempt, false, None,
             if org.value.subscription.Some? then Some(org.value.subscription.value.planCode) else None)
    else
      match org.value.subscription
      case None => Access(OnTrial, false, None, None)
      case Some(sub) =>
        match sub.status
        case TRIALING =>
          var expired := Ended(sub.periodEnd, now);
          Access(if expired then Locked else OnTrial, expired, sub.periodEnd, Some(sub.planCode))
        case ACTIVE =>
          if NoCard(sub.code) && Ended(sub.periodEnd, now) then
            Access(Locked, true, None, Some(sub.planCode))
          else
            Access(Paying, false, None, Some(sub.planCode))
        case _ => Access(Locked, true, None, Some(sub.planCode))
  }

  /** The first moment at which a fresh decision may differ from `Decide(org, now)`. */
  function ExpiresAt(org: Option<Organization>, now: int): int {
    var ttl := now + CACHE_TTL_MS;
    var trial := Decide(org, now).trialEndsAt;
    var upToTrial := if trial.Some? then Min(ttl, trial.value) else ttl;
    if org.Some? && org.value.subscription.Some? &&
       NoCard(org.value.subscription.value.code) && org.value.subscription.value.periodEnd.Some?
    then Min(upToTrial, org.value.subscription.value.periodEnd.value)
    else upToTrial
  }

  /** A decision never changes before its entry expires, as long as the row does not change. */
  lemma DecisionStableUntilExpiry(org: Option<Organization>, now: int, t: int)
    requires now <= t < ExpiresAt(org, now)
    ensures Decide(org, t) == Decide(org, now)
    ensures t < now + CACHE_TTL_MS
  {
  }

  /** A cached answer is used only while its own expiry lies in the future. */
  predicate Hit(cache: Cache, orgId: OrgId, now: int) {
    orgId in cache && cache[orgId].expiresAt > now
  }

  function Answer(cache: Cache, orgs: Organizations, orgId: OrgId, now: int): Access {
    if Hit(cache, orgId, now) then cache[orgId].value else Decide(Lookup(orgs, orgId), now)
  }

  function CacheAfter(cache: Cache, orgs: Organizations, orgId: OrgId, now: int): Cache {
    if Hit(cache, orgId, now) then cache
    else
      var org := Lookup(orgs, orgId);
      cache[orgId := CacheEntry(ExpiresAt(org, now), Decide(org, now))]
  }

  // ---------- The sweep's statements ----------

  function SetStatus(orgs: Organizations, matched: set<OrgId>, status: Status): Organizations {
    map o | o in orgs ::
      if o in matched && orgs[o].subscription.Some?
      then orgs[o].(subscription := Some(orgs[o].subscription.value.(status := status)))
      else orgs[o]
  }

  predicate IsExempt(slug: string) {
    slug in BILLING_EXEMPT_SLUGS
  }

  predicate IsExpiredTrial(org: Organization, now: int) {
    && org.subscription.Some? && !IsExempt(org.slug)
    && org.subscription.value.status == TRIALING && Ended(org.subscription.value.periodEnd, now)
  }

  predicate IsLapsedMonth(org: Organization, now: int) {
    && org.subscription.Some? && !IsExempt(org.slug)
    && org.subscription.value.status == ACTIVE && org.subscription.value.code == None
    && Ended(org.subscription.value.periodEnd, now)
  }

  predicate IsUncomped(org: Organization) {
    org.subscription.Some? && IsExempt(org.slug) && org.subscription.value.status != ACTIVE
  }

  function ExpiredTrials(orgs: Organizations, now: int): set<OrgId> {
    set o | o in orgs && IsExpiredTrial(orgs[o], now)
  }

  function LapsedMonths(orgs: Organizations, now: int): set<OrgId> {
    set o | o in orgs && IsLapsedMonth(orgs[o], now)
  }

  function UncompedExempt(orgs: Organizations): set<OrgId> {
    set o | o in orgs && IsUncomped(orgs[o])
  }

  function Orphans(orgs: Organizations): set<OrgId> {
    set o | o in orgs && orgs[o].subscription.None?
  }

  /** What a bounded, unordered `findMany` may return. */
  predicate IsBatch(orgs: Organizations, batch: set<OrgId>) {
    && batch <= Orphans(orgs)
    && |batch| == if |Orphans(orgs)| <= BACKFILL_BATCH then |Orphans(orgs)| else BACKFILL_BATCH
  }

  /** The subscription a backfill gives to a workspace that has none. */
  function BackfillRow(slug: string, plans: set<string>, now: int): Subscription {
    if IsExempt(slug)
    then Subscription(ACTIVE, None, None, if "VIP" in plans then "VIP" else "PRO")
    else Subscription(TRIALING, Some(now + TRIAL_MS), None, "PRO")
  }

  function Backfill(orgs: Organizations, plans: set<string>, batch: set<OrgId>, now: int): Organizations {
    if "PRO" !in plans then orgs
    else
      map o | o in orgs ::
        if o in batch && orgs[o].subscription.None?
        then orgs[o].(subscription := Some(BackfillRow(orgs[o].slug, plans, now)))
        else orgs[o]
  }

  /** The tables after the first `done` statements of a sweep that then stops. */
  function AfterStatements(orgs: Organizations, plans: set<string>, batch: set<OrgId>, now: int, done: nat): Organizations {
    if done == 0 then orgs
    else
      var one := SetStatus(orgs, ExpiredTrials(orgs, now), PAST_DUE);
      if done == 1 then one
      else
        var two := SetStatus(one, LapsedMonths(one, now), PAST_DUE);
        if done == 2 then two
        else
          var three := SetStatus(two, UncompedExempt(two), ACTIVE);
          if done == 3 then three else Backfill(three, plans, batch, now)
  }

  function AfterSweep(orgs: Organizations, plans: set<string>, batch: set<OrgId>, now: int): Organizations {
    AfterStatements(orgs, plans, batch, now, 4)
  }

  /** What a whole sweep does to one row, in one step. */
  function SweptRow(org: Organization, plans: set<string>, chosen: bool, now: int): Organization {
    match org.subscription
    case None =>
      if chosen && "PRO" in plans
      then org.(subscription := Some(BackfillRow(org.slug, plans, now)))
      else org
    case Some(sub) =>
      if IsExempt(org.slug) then org.(subscription := Some(sub.(status := ACTIVE)))
      else if Ended(sub.periodEnd, now) && (sub.status == TRIALING || (sub.status == ACTIVE && sub.code == None))
      then org.(subscription := Some(sub.(status := PAST_DUE)))
      else org
  }

  /** The four statements never disturb one another: together they rewrite each row on its own. */
  lemma SweepIsPerRow(orgs: Organizations, plans: set<string>, batch: set<OrgId>, now: int)
    ensures AfterSweep(orgs, plans, batch, now).Keys == orgs.Keys
    ensures forall o :: o in orgs ==> AfterSweep(orgs, plans, batch, now)[o] == SweptRow(orgs[o], plans, o in batch, now)
  {
    forall o | o in orgs
      ensures AfterSweep(orgs, plans, batch, now)[o] == SweptRow(orgs[o], plans, o in batch, now)
    {
      SweepOneRow(orgs, plans, batch, now, o);
    }
  }

  lemma SweepOneRow(orgs: Organizations, plans: set<string>, batch: set<OrgId>, now: int, o: OrgId)
    requires o in orgs
    ensures AfterSweep(orgs, plans, batch, now)[o] == SweptRow(orgs[o], plans, o in batch, now)
  {
    var one := SetStatus(orgs, ExpiredTrials(orgs, now), PAST_DUE);
    var two := SetStatus(one, LapsedMonths(one, now), PAST_DUE);
    var three := SetStatus(two, UncompedExempt(two), ACTIVE);
    assert AfterSweep(orgs, plans, batch, now) == Backfill(three, plans, batch, now);
    assert o in ExpiredTrials(orgs, now) <==> IsExpiredTrial(orgs[o], now);
    assert o in LapsedMonths(one, now) <==> IsLapsedMonth(one[o], now);
    assert o in UncompedExempt(two) <==> IsUncomped(two[o]);
  }

  /** The first statements touch no orphan, so the batch read later is one of the original orphans. */
  lemma OrphansUntouched(orgs: Organizations, plans: set<string>, batch: set<OrgId>, now: int, done: nat)
    requires done <= 3
    ensures Orphans(AfterStatements(orgs, plans, batch, now, done)) == Orphans(orgs)
  {
    var after := AfterStatements(orgs, plans, batch, now, done);
    assert after.Keys == orgs.Keys;
    assert forall o :: o in orgs ==> (after[o].subscription.None? <==> orgs[o].subscription.None?);
  }

  // ---------- What the sweep promises ----------

  /** Recording expiry changes no answer: locked before is locked after, at every later moment. */
  lemma SweepPreservesLocked(orgs: Organizations, plans: set<string>, batch: set<OrgId>, now: int, orgId: OrgId, t: int)
    requires orgId in orgs && orgs[orgId].subscription.Some?
    requires now <= t
    ensures Decide(Lookup(AfterSweep(orgs, plans, batch, now), orgId), t).locked ==
            Decide(Lookup(orgs, orgId), t).locked
  {
    SweepIsPerRow(orgs, plans, batch, now);
  }

  /** A backfilled trial is open for exactly the trial's length, counted from the sweep. */
  lemma BackfillOpensTrial(orgs: Organizations, plans: set<string>, batch: set<OrgId>, now: int, orgId: OrgId, t: int)
    requires "PRO" in plans
    requires orgId in batch && orgId in Orphans(orgs)
    ensures Decide(Lookup(AfterSweep(orgs, plans, batch, now), orgId), t).locked
            <==> !IsExempt(orgs[orgId].slug) && now + TRIAL_MS <= t
  {
    SweepIsPerRow(orgs, plans, batch, now);
  }

  lemma SweepLeavesOrphans(orgs: Organizations, plans: set<string>, batch: set<OrgId>, now: int)
    requires "PRO" in plans
    ensures Orphans(AfterSweep(orgs, plans, batch, now)) == Orphans(orgs) - batch
  {
    SweepIsPerRow(orgs, plans, batch, now);
  }

  /**
   A second sweep at the same moment changes nothing exactly when the first one could finish the
   backfill: at most one batch of orphans, or no PRO plan to give them.
   */
  lemma SecondSweepNoOp(orgs: Organizations, plans: set<string>, first: set<OrgId>, second: set<OrgId>, now: int)
    requires IsBatch(orgs, first)
    requires IsBatch(AfterSweep(orgs, plans, first, now), second)
    ensures AfterSweep(AfterSweep(orgs, plans, first, now), plans, second, now) == AfterSweep(orgs, plans, first, now)
            <==> |Orphans(orgs)| <= BACKFILL_BATCH || "PRO" !in plans
  {
    var once := AfterSweep(orgs, plans, first, now);
    var twice := AfterSweep(once, plans, second, now);
    SweepIsPerRow(orgs, plans, first, now);
    SweepIsPerRow(once, plans, second, now);
    forall o | o in once && !(o in second && "PRO" in plans)
      ensures twice[o] == once[o]
    {
      SweptRowSettles(orgs[o], plans, o in first, o in second, now);
    }
    if "PRO" in plans {
      SweepLeavesOrphans(orgs, plans, first, now);
      assert |Orphans(orgs) - first| == |Orphans(orgs)| - |first|;
      if |Orphans(orgs)| <= BACKFILL_BATCH {
        assert second == {};
      } else {
        assert second != {};
        var o :| o in second;
        assert twice[o] != once[o];
      }
    }
  }

  /** A swept row is left alone by the next sweep, unless it is an orphan that sweep picks up. */
  lemma SweptRowSettles(org: Organization, plans: set<string>, chosen: bool, chosenNext: bool, now: int)
    requires var swept := SweptRow(org, plans, chosen, now);
             swept.subscription.Some? || !chosenNext || "PRO" !in plans
    ensures var swept := SweptRow(org, plans, chosen, now);
            SweptRow(swept, plans, chosenNext, now) == swept
  {
  }

  /** The sweep's statements match disjoint rows, so none of them sees another's writes. */
  lemma StatementsIndependent(orgs: Organizations, now: int)
    ensures var one := SetStatus(orgs, ExpiredTrials(orgs, now), PAST_DUE);
            var two := SetStatus(one, LapsedMonths(one, now), PAST_DUE);
            && LapsedMonths(one, now) == LapsedMonths(orgs, now)
            && UncompedExempt(two) == UncompedExempt(orgs)
  {
    var one := SetStatus(orgs, ExpiredTrials(orgs, now), PAST_DUE);
    var two := SetStatus(one, LapsedMonths(one, now), PAST_DUE);
    forall o | o in orgs
      ensures o in LapsedMonths(one, now) <==> o in LapsedMonths(orgs, now)
      ensures o in UncompedExempt(two) <==> o in UncompedExempt(orgs)
    {
      assert o in ExpiredTrials(orgs, now) <==> IsExpiredTrial(orgs[o], now);
      assert o in LapsedMonths(one, now) <==> IsLapsedMonth(one[o], now);
    }
  }

  /** A row matched by one of the first three statements is changed by the sweep, and no other with a subscription is. */
  lemma {:induction false} MatchedRowsChange(org: Organization, plans: set<string>, chosen: bool, now: int)
    requires org.subscription.Some?
    ensures SweptRow(org, plans, chosen, now) == org
            <==> !IsExpiredTrial(org, now) && !IsLapsedMonth(org, now) && !IsUncomped(org)
  {
  }

  lemma {:induction false} UnchangedMeansUnmatched(orgs: Organizations, plans: set<string>, batch: set<OrgId>, now: int, o: OrgId)
    requires IsBatch(orgs, batch) && AfterSweep(orgs, plans, batch, now) == orgs
    ensures o !in ExpiredTrials(orgs, now) && o !in LapsedMonths(orgs, now) && o !in UncompedExempt(orgs)
    ensures o !in batch || "PRO" !in plans
  {
    if o in orgs {
      SweepOneRow(orgs, plans, batch, now, o);
      if orgs[o].subscription.Some? {
        MatchedRowsChange(orgs[o], plans, o in batch, now);
      }
    }
  }

  lemma {:induction false} UnmatchedMeansUnchanged(orgs: Organizations, plans: set<string>, batch: set<OrgId>, now: int, o: OrgId)
    requires o in orgs
    requires o !in ExpiredTrials(orgs, now) && o !in LapsedMonths(orgs, now) && o !in UncompedExempt(orgs)
    requires o !in batch || "PRO" !in plans
    ensures AfterSweep(orgs, plans, batch, now)[o] == orgs[o]
  {
    SweepOneRow(orgs, plans, batch, now, o);
    if orgs[o].subscription.Some? {
      MatchedRowsChange(orgs[o], plans, o in batch, now);
    }
  }

  /** A sweep reports zero work exactly when it changed no row. */
  lemma {:induction false} SweepCountsChanges(orgs: Organizations, plans: set<string>, batch: set<OrgId>, now: int)
    requires IsBatch(orgs, batch)
    ensures AfterSweep(orgs, plans, batch, now) == orgs
            <==> ExpiredTrials(orgs, now) == {} && LapsedMonths(orgs, now) == {} && UncompedExempt(orgs) == {} &&
                 (batch == {} || "PRO" !in plans)
  {
    var after := AfterSweep(orgs, plans, batch, now);
    SweepIsPerRow(orgs, plans, batch, now);
    if after == orgs {
      forall o: OrgId
        ensures o !in ExpiredTrials(orgs, now) && o !in LapsedMonths(orgs, now) && o !in UncompedExempt(orgs)
        ensures o !in batch || "PRO" !in plans
      {
        UnchangedMeansUnmatched(orgs, plans, batch, now, o);
      }
    }
    if ExpiredTrials(orgs, now) == {} && LapsedMonths(orgs, now) == {} && UncompedExempt(orgs) == {} && (batch == {} || "PRO" !in plans) {
      forall o | o in orgs
        ensures after[o] == orgs[o]
      {
        UnmatchedMeansUnchanged(orgs, plans, batch, now, o);
      }
    }
  }

  lemma {:induction false} SweepReportsChanges(orgs: Organizations, plans: set<string>, batch: set<OrgId>, now: int)
    requires IsBatch(orgs, batch)
    ensures IsBatch(AfterStatements(orgs, plans, batch, now, 3), batch)
    ensures AfterSweep(orgs, plans, batch, now) == Backfill(AfterStatements(orgs, plans, batch, now, 3), plans, batch, now)
    ensures AfterSweep(orgs, plans, batch, now) == orgs
            <==> |ExpiredTrials(orgs, now)| == 0 && |LapsedMonths(orgs, now)| == 0 && |UncompedExempt(orgs)| == 0 &&
                 (if "PRO" in plans then |batch| else 0) == 0
  {
    SweepCountsChanges(orgs, plans, batch, now);
    OrphansUntouched(orgs, plans, batch, now, 3);
  }

  // ---------- The service ----------

  /** Starting a trial writes a row only where there is none, so it never hands out a second one. */
  function AfterStartTrial(orgs: Organizations, plans: set<string>, orgId: OrgId, now: int): Organizations {
    if "PRO" in plans && orgId in orgs && orgs[orgId].subscription.None?
    then orgs[orgId := orgs[orgId].(subscription := Some(Subscription(TRIALING, Some(now + TRIAL_MS), None, "PRO")))]
    else orgs
  }

  class WorkspaceAccessService {
    const db: Database
    var cache: Cache

    constructor (db: Database)
      ensures this.db == db && cache == map[]
    {
      this.db := db;
      cache := map[];
    }

    /** Upserts with an empty update.  A missing plan, or a database error (`fails`), answers None. */
    method StartTrial(orgId: OrgId, now: int, fails: bool) returns (endsAt: Option<int>)
      modifies this`cache, db`orgs
      ensures db.orgs == if fails then old(db.orgs) else AfterStartTrial(old(db.orgs), db.plans, orgId, now)
      ensures endsAt == if !fails && "PRO" in db.plans && orgId in old(db.orgs) then Some(now + TRIAL_MS) else None
      ensures cache == if endsAt.Some? then old(cache) - {orgId} else old(cache)
    {
      if fails || "PRO" !in db.plans {
        return None;
      }
      if orgId !in db.orgs {
        return None; // the foreign key refuses the row, and the error is swallowed
      }
      var org := db.orgs[orgId];
      if org.subscription.None? {
        db.orgs := db.orgs[orgId := org.(subscription := Some(Subscription(TRIALING, Some(now + TRIAL_MS), None, "PRO")))];
      }
      cache := cache - {orgId};
      return Some(now + TRIAL_MS);
    }

    method Invalidate(orgId: OrgId)
      modifies this`cache
      ensures cache == old(cache) - {orgId}
    {
      cache := cache - {orgId};
    }

    /** The answer a request gets, from the cache or from the row. */
    method State(orgId: OrgId, now: int) returns (value: Access)
      modifies this`cache
      ensures value == Answer(old(cache), db.orgs, orgId, now)
      ensures cache == CacheAfter(old(cache), db.orgs, orgId, now)
    {
      if orgId in cache && cache[orgId].expiresAt > now {
        return cache[orgId].value;
      }
      var org := Lookup(db.orgs, orgId);
      value := Decide(org, now);
      var expiresAt := now + CACHE_TTL_MS;
      if value.trialEndsAt.Some? {
        expiresAt := Min(expiresAt, value.trialEndsAt.value);
      }
      if org.Some? && org.value.subscription.Some? && NoCard(org.value.subscription.value.code) {
        var periodEnd := org.value.subscription.value.periodEnd;
        if periodEnd.Some? {
          expiresAt := Min(expiresAt, periodEnd.value);
        }
      }
      cache := cache[orgId := CacheEntry(expiresAt, value)];
    }

    /** `batch` is the database's own pick among the orphans. */
    method BackfillMissing(batch: set<OrgId>, now: int) returns (created: nat)
      requires IsBatch(db.orgs, batch)
      modifies db`orgs
      ensures db.orgs == Backfill(old(db.orgs), db.plans, batch, now)
      ensures created == if "PRO" in db.plans then |batch| else 0
    {
      if |batch| == 0 {
        assert Backfill(db.orgs, db.plans, batch, now) == db.orgs;
        return 0;
      }
      if "PRO" !in db.plans {
        return 0;
      }
      db.orgs := Backfill(db.orgs, db.plans, batch, now);
      created := |batch|;
    }

    /** Write down what the clock already says. */
    method Sweep(batch: set<OrgId>, now: int) returns (result: SweepResult)
      requires IsBatch(db.orgs, batch)
      modifies this`cache, db`orgs
      ensures db.orgs == AfterSweep(old(db.orgs), db.plans, batch, now)
      ensures result.expired == |ExpiredTrials(old(db.orgs), now)|
      ensures result.lapsed == |LapsedMonths(old(db.orgs), now)|
      ensures result.comped == |UncompedExempt(old(db.orgs))|
      ensures result.backfilled == if "PRO" in db.plans then |batch| else 0
      ensures cache == if db.orgs == old(db.orgs) then old(cache) else map[]
    {
      ghost var before := db.orgs;
      StatementsIndependent(before, now);
      SweepReportsChanges(before, db.plans, batch, now);

      var expired := ExpiredTrials(db.orgs, now);
      db.orgs := SetStatus(db.orgs, expired, PAST_DUE);
      var lapsed := LapsedMonths(db.orgs, now);
      db.orgs := SetStatus(db.orgs, lapsed, PAST_DUE);
      var comped := UncompedExempt(db.orgs);
      db.orgs := SetStatus(db.orgs, comped, ACTIVE);
      assert db.orgs == AfterStatements(before, db.plans, batch, now, 3);
      var backfilled := BackfillMissing(batch, now);

      if |expired| != 0 || |lapsed| != 0 || |comped| != 0 || backfilled != 0 {
        cache := map[];
      }
      result := SweepResult(|expired|, |lapsed|, backfilled, |comped|);
    }
  }
}
