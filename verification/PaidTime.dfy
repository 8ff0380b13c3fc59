/**
 Conservation of paid time, over serialised runs in which one workspace only ever buys single
 months.  Every other workspace may do anything: subscribe with a card, cancel, start trials.
 */
module PaidTime {
  import opened Wrappers
  import opened Subscriptions
  import opened WorkspaceAccess
  import opened Payments
  import opened BillingRuns

  /** Every payment for `o` among the events is a one-off. */
  ghost predicate OnlyMonths(events: seq<Event>, o: OrgId) {
    forall e :: e in events && e.Pay? && e.payment.orgId == Some(o) ==> e.payment.once
  }

  /** Time added by the payments of one workspace. */
  function TotalGranted(grants: seq<Grant>, o: OrgId): int {
    if grants == [] then 0
    else
      var g := grants[|grants| - 1];
      TotalGranted(grants[..|grants| - 1], o) + (if g.orgId == o then g.until - g.from else 0)
  }

  /** The distinct references applied for one workspace. */
  function References(ledger: Ledger, o: OrgId): set<string> {
    set r | r in ledger && ledger[r].orgId == o
  }

  ghost predicate HasGrant(grants: seq<Grant>, o: OrgId) {
    exists i :: 0 <= i < |grants| && grants[i].orgId == o
  }

  ghost predicate Disjoint(grants: seq<Grant>, o: OrgId) {
    forall i, j :: 0 <= i < j < |grants| && grants[i].orgId == o && grants[j].orgId == o ==>
                     grants[i].until <= grants[j].from
  }

  /** Every month of `o` so far ends by `t`. */
  ghost predicate EndBy(grants: seq<Grant>, o: OrgId, t: int) {
    forall i :: 0 <= i < |grants| && grants[i].orgId == o ==> grants[i].until <= t
  }

  ghost predicate GrantsWellFormed(s: State) {
    forall i :: 0 <= i < |s.grants| ==>
                  && s.grants[i].at <= s.grants[i].from
                  && s.grants[i].until == s.grants[i].from + ONE_MONTH_MS
                  && s.grants[i].at <= s.clock
                  && s.grants[i].reference in s.ledger
                  && s.ledger[s.grants[i].reference].orgId == s.grants[i].orgId
  }

  ghost predicate DistinctReferences(grants: seq<Grant>) {
    forall i, j :: 0 <= i < j < |grants| ==> grants[i].reference != grants[j].reference
  }

  /** The row a bought month leaves behind keeps serving until its own end date. */
  ghost predicate RowServes(s: State, o: OrgId) {
    && o in s.orgs && s.orgs[o].subscription.Some?
    && var sub := s.orgs[o].subscription.value;
       && sub.periodEnd.Some?
       && (sub.status == ACTIVE || sub.status == PAST_DUE)
       && (s.clock < sub.periodEnd.value ==> sub.status == ACTIVE)
       && EndBy(s.grants, o, sub.periodEnd.value)
       && (exists i :: 0 <= i < |s.grants| && s.grants[i].orgId == o && s.grants[i].until == sub.periodEnd.value)
  }

  /** A month granted for every distinct reference. */
  ghost predicate Balanced(grants: seq<Grant>, ledger: Ledger, o: OrgId) {
    TotalGranted(grants, o) == ONE_MONTH_MS * |References(ledger, o)|
  }

  ghost predicate PaidInv(s: State, o: OrgId) {
    && GrantsWellFormed(s)
    && DistinctReferences(s.grants)
    && Disjoint(s.grants, o)
    && (SubscriptionOf(s.orgs, o).Some? ==> SubscriptionOf(s.orgs, o).value.code == None)
    && (HasGrant(s.grants, o) ==> RowServes(s, o))
    && Balanced(s.grants, s.ledger, o)
  }

  /** A row whose end date, code, plan and slug stayed, and whose status only a clock or a slug justifies. */
  predicate OnlyMarked(before: Organization, after: Organization, now: int) {
    && after.slug == before.slug
    && before.subscription.Some? && after.subscription.Some?
    && var sub, sub' := before.subscription.value, after.subscription.value;
       && sub'.periodEnd == sub.periodEnd && sub'.code == sub.code && sub'.planCode == sub.planCode
       && (|| sub'.status == sub.status
           || (sub'.status == ACTIVE && IsExempt(before.slug))
           || (sub'.status == PAST_DUE && Ended(sub.periodEnd, now)))
  }

  lemma {:induction false} StatementMarks(orgs: Organizations, matched: set<OrgId>, status: Status, now: int, o: OrgId)
    requires o in orgs && orgs[o].subscription.Some?
    requires o in matched ==>
               || (status == ACTIVE && IsExempt(orgs[o].slug))
               || (status == PAST_DUE && Ended(orgs[o].subscription.value.periodEnd, now))
    ensures OnlyMarked(orgs[o], SetStatus(orgs, matched, status)[o], now)
  {
  }

  /** No prefix of a sweep moves an end date, a code or a slug, and it only demotes what has ended. */
  lemma {:induction false} StatementsKeepRow(orgs: Organizations, plans: set<string>, batch: set<OrgId>, now: int, done: nat, o: OrgId)
    requires o in orgs && orgs[o].subscription.Some? && done <= 4
    ensures o in AfterStatements(orgs, plans, batch, now, done)
    ensures OnlyMarked(orgs[o], AfterStatements(orgs, plans, batch, now, done)[o], now)
  {
    var one := SetStatus(orgs, ExpiredTrials(orgs, now), PAST_DUE);
    StatementMarks(orgs, ExpiredTrials(orgs, now), PAST_DUE, now, o);
    var two := SetStatus(one, LapsedMonths(one, now), PAST_DUE);
    StatementMarks(one, LapsedMonths(one, now), PAST_DUE, now, o);
    StatementMarks(two, UncompedExempt(two), ACTIVE, now, o);
  }

  /** A sweep that reaches the backfill gives an orphan a row with no code; nothing else touches an orphan. */
  lemma {:induction false} StatementsOnOrphan(orgs: Organizations, plans: set<string>, batch: set<OrgId>, now: int, done: nat, o: OrgId)
    requires done <= 4 && SubscriptionOf(orgs, o).None?
    ensures var after := SubscriptionOf(AfterStatements(orgs, plans, batch, now, done), o);
            after.Some? ==> after.value.code == None
  {
    if o in orgs {
      var one := SetStatus(orgs, ExpiredTrials(orgs, now), PAST_DUE);
      var two := SetStatus(one, LapsedMonths(one, now), PAST_DUE);
      var three := SetStatus(two, UncompedExempt(two), ACTIVE);
      assert three[o].subscription.None?;
    }
  }

  /** One more grant, starting no earlier than the clock and every end so far, keeps the books. */
  lemma {:induction false} AppendGrant(s: State, s': State, g: Grant, o: OrgId)
    requires GrantsWellFormed(s) && DistinctReferences(s.grants)
    requires s'.grants == s.grants + [g] && s'.clock == s.clock
    requires g.reference !in s.ledger
    requires g.reference in s'.ledger && s'.ledger[g.reference].orgId == g.orgId
    requires forall r :: r in s.ledger ==> r in s'.ledger && s'.ledger[r] == s.ledger[r]
    requires g.at <= g.from && g.at <= s.clock && g.until == g.from + ONE_MONTH_MS
    ensures GrantsWellFormed(s') && DistinctReferences(s'.grants)
    requires g.orgId == o ==> EndBy(s.grants, o, g.from)
    ensures g.orgId != o && HasGrant(s'.grants, o) ==> HasGrant(s.grants, o)
    ensures Disjoint(s.grants, o) ==> Disjoint(s'.grants, o)
  {
  }

  /** A month bought by `o` itself. */
  lemma {:induction false} PayForItself(s: State, p: Payment, o: OrgId)
    requires PaidInv(s, o)
    requires p.orgId == Some(o) && p.once
    requires OutcomeOf(s.orgs, s.plans, s.ledger, p, s.clock, false).Applied?
    ensures PaidInv(Next(s, Pay(p, false)), o)
  {
    EndsBeforeMonthStart(s, o);
    AppendOwnGrant(s, Next(s, Pay(p, false)), GrantOf(s, p));
  }

  lemma {:induction false} LastGrantServes(s: State, s': State, g: Grant)
    requires s'.grants == s.grants + [g] && g.from <= g.until
    requires EndBy(s.grants, g.orgId, g.from)
    requires SubscriptionOf(s'.orgs, g.orgId).Some?
    requires SubscriptionOf(s'.orgs, g.orgId).value.(planCode := "") == Subscription(ACTIVE, Some(g.until), None, "")
    ensures RowServes(s', g.orgId)
  {
    assert s'.grants[|s.grants|] == g;
  }

  lemma {:induction false} GrantBalances(grants: seq<Grant>, ledger: Ledger, g: Grant, marker: Marker)
    requires Balanced(grants, ledger, g.orgId)
    requires g.reference !in ledger && marker.orgId == g.orgId && g.until == g.from + ONE_MONTH_MS
    ensures Balanced(grants + [g], ledger[g.reference := marker], g.orgId)
  {
    assert References(ledger[g.reference := marker], g.orgId) == References(ledger, g.orgId) + {g.reference};
    assert (grants + [g])[..|grants|] == grants;
  }

  lemma {:induction false} OtherBalances(grants: seq<Grant>, grants': seq<Grant>, ledger: Ledger, ledger': Ledger, o: OrgId)
    requires Balanced(grants, ledger, o)
    requires References(ledger', o) == References(ledger, o)
    requires grants' == grants || (|grants'| == |grants| + 1 && grants'[..|grants|] == grants && grants'[|grants|].orgId != o)
    ensures Balanced(grants', ledger', o)
  {
  }

  lemma {:induction false} AppendOwnGrant(s: State, s': State, g: Grant)
    requires PaidInv(s, g.orgId)
    requires s'.grants == s.grants + [g] && s'.clock == s.clock
    requires g.reference !in s.ledger
    requires g.reference in s'.ledger && s'.ledger[g.reference].orgId == g.orgId
    requires s'.ledger == s.ledger[g.reference := s'.ledger[g.reference]]
    requires g.at <= g.from && g.at <= s.clock && g.until == g.from + ONE_MONTH_MS
    requires EndBy(s.grants, g.orgId, g.from)
    requires SubscriptionOf(s'.orgs, g.orgId).Some?
    requires SubscriptionOf(s'.orgs, g.orgId).value.(planCode := "") == Subscription(ACTIVE, Some(g.until), None, "")
    ensures PaidInv(s', g.orgId)
  {
    AppendGrant(s, s', g, g.orgId);
    GrantBalances(s.grants, s.ledger, g, s'.ledger[g.reference]);
    LastGrantServes(s, s', g);
  }

  /** The next month starts no earlier than the end of any month already bought. */
  lemma EndsBeforeMonthStart(s: State, o: OrgId)
    requires HasGrant(s.grants, o) ==> RowServes(s, o)
    ensures EndBy(s.grants, o, MonthStart(PeriodEnd(SubscriptionOf(s.orgs, o)), s.clock))
  {
    assert forall i :: 0 <= i < |s.grants| && s.grants[i].orgId == o ==> HasGrant(s.grants, o);
  }

  lemma {:induction false} AppendOthersGrant(s: State, s': State, g: Grant, o: OrgId)
    requires PaidInv(s, o) && g.orgId != o
    requires s'.grants == s.grants + [g] && s'.clock == s.clock
    requires g.reference !in s.ledger
    requires g.reference in s'.ledger && s'.ledger[g.reference].orgId == g.orgId
    requires s'.ledger == s.ledger[g.reference := s'.ledger[g.reference]]
    requires g.at <= g.from && g.at <= s.clock && g.until == g.from + ONE_MONTH_MS
    requires s'.orgs.Keys == s.orgs.Keys && (o in s.orgs ==> s'.orgs[o] == s.orgs[o])
    ensures PaidInv(s', o)
  {
    AppendGrant(s, s', g, o);
    assert References(s'.ledger, o) == References(s.ledger, o);
    OtherBalances(s.grants, s'.grants, s.ledger, s'.ledger, o);
    if HasGrant(s.grants, o) {
      RowServesOn(s, s', o);
    }
  }

  lemma {:induction false} OthersSubscription(s: State, s': State, o: OrgId)
    requires PaidInv(s, o)
    requires s'.grants == s.grants && s'.clock == s.clock
    requires s.ledger.Keys <= s'.ledger.Keys && forall r :: r in s.ledger ==> s'.ledger[r] == s.ledger[r]
    requires References(s'.ledger, o) == References(s.ledger, o)
    requires s'.orgs.Keys == s.orgs.Keys && (o in s.orgs ==> s'.orgs[o] == s.orgs[o])
    ensures PaidInv(s', o)
  {
    if HasGrant(s.grants, o) {
      RowServesOn(s, s', o);
    }
  }

  /** A payment for another workspace, of either kind. */
  lemma {:induction false} PayForAnother(s: State, p: Payment, o: OrgId)
    requires PaidInv(s, o)
    requires p.orgId != Some(o)
    requires OutcomeOf(s.orgs, s.plans, s.ledger, p, s.clock, false).Applied?
    ensures PaidInv(Next(s, Pay(p, false)), o)
  {
    var s' := Next(s, Pay(p, false));
    if p.once {
      AppendOthersGrant(s, s', GrantOf(s, p), o);
    } else {
      assert References(s'.ledger, o) == References(s.ledger, o);
      OthersSubscription(s, s', o);
    }
  }

  /** Grants to others and writes to other rows leave the promise to `o` standing. */
  lemma {:induction false} RowServesOn(s: State, s': State, o: OrgId)
    requires RowServes(s, o)
    requires o in s'.orgs && s'.orgs[o] == s.orgs[o] && s'.clock == s.clock
    requires s.grants <= s'.grants
    requires forall i :: |s.grants| <= i < |s'.grants| ==> s'.grants[i].orgId != o
    ensures RowServes(s', o)
  {
    var end := s.orgs[o].subscription.value.periodEnd.value;
    var i :| 0 <= i < |s.grants| && s.grants[i].orgId == o && s.grants[i].until == end;
    assert s'.grants[i] == s.grants[i];
  }

  lemma {:induction false} PayStep(s: State, p: Payment, aborts: bool, o: OrgId)
    requires PaidInv(s, o)
    requires p.orgId == Some(o) ==> p.once
    ensures PaidInv(Next(s, Pay(p, aborts)), o)
  {
    if OutcomeOf(s.orgs, s.plans, s.ledger, p, s.clock, aborts).Applied? {
      if p.orgId == Some(o) {
        PayForItself(s, p, o);
      } else {
        PayForAnother(s, p, o);
      }
    }
  }

  lemma {:induction false} SweepStep(s: State, batch: set<OrgId>, done: nat, o: OrgId)
    requires PaidInv(s, o) && done <= 4
    ensures PaidInv(Next(s, RunSweep(batch, done)), o)
  {
    if SubscriptionOf(s.orgs, o).Some? {
      StatementsKeepRow(s.orgs, s.plans, batch, s.clock, done, o);
    } else {
      StatementsOnOrphan(s.orgs, s.plans, batch, s.clock, done, o);
    }
  }

  lemma {:induction false} PaidInvStep(s: State, e: Event, o: OrgId)
    requires PaidInv(s, o) && Enabled(s, e)
    requires s.orgs.Keys <= s.named
    requires e.Pay? && e.payment.orgId == Some(o) ==> e.payment.once
    ensures PaidInv(Next(s, e), o)
  {
    match e
    case Pay(p, aborts) => PayStep(s, p, aborts, o);
    case RunSweep(batch, done) => SweepStep(s, batch, done, o);
    case _ =>
  }

  lemma {:induction false} PaidInvRun(s: State, events: seq<Event>, s': State, o: OrgId)
    requires PaidInv(s, o) && CacheExact(s) && Run(s, events, s') && OnlyMonths(events, o)
    ensures PaidInv(s', o)
    decreases |events|
  {
    if events != [] {
      assert events[0] in events;
      PaidInvStep(s, events[0], o);
      CacheExactStep(s, events[0]);
      assert forall e :: e in events[1..] ==> e in events;
      PaidInvRun(Next(s, events[0]), events[1..], s', o);
    }
  }

  /**
   Conservation: the applied months of a workspace are pairwise disjoint intervals, one per distinct
   reference, and together exactly 31 days for each.
   */
  lemma PaidTimeConserved(start: State, events: seq<Event>, s: State, o: OrgId)
    requires Init(start) && Run(start, events, s) && OnlyMonths(events, o)
    ensures Disjoint(s.grants, o)
    ensures DistinctReferences(s.grants)
    ensures TotalGranted(s.grants, o) == 31 * DAY_MS * |References(s.ledger, o)|
  {
    assert References(start.ledger, o) == {};
    PaidInvRun(start, events, s, o);
  }

  /**
   Delivery: a workspace that has bought months is unlocked exactly until the end of the last one,
   through any mix of sweeps, replays, trials and other workspaces' payments and cancellations.
   */
  lemma {:induction false} PaidTimeServed(start: State, events: seq<Event>, s: State, o: OrgId, k: nat)
    requires Init(start) && Run(start, events, s) && OnlyMonths(events, o)
    requires k < |s.grants| && s.grants[k].orgId == o
    requires forall i :: k < i < |s.grants| ==> s.grants[i].orgId != o
    ensures o in s.orgs
    ensures Answer(s.cache, s.orgs, o, s.clock).locked
            <==> s.grants[k].until <= s.clock && !IsExempt(s.orgs[o].slug)
    ensures EndBy(s.grants, o, s.grants[k].until)
  {
    assert References(start.ledger, o) == {};
    PaidInvRun(start, events, s, o);
    CachedAnswerIsExact(start, events, s, o);
    assert HasGrant(s.grants, o);
    LastGrantIsEnd(s, o, k);
  }

  /** The end date in the row is the end of the last month bought. */
  lemma {:induction false} LastGrantIsEnd(s: State, o: OrgId, k: nat)
    requires Disjoint(s.grants, o) && GrantsWellFormed(s) && RowServes(s, o)
    requires k < |s.grants| && s.grants[k].orgId == o
    requires forall i :: k < i < |s.grants| ==> s.grants[i].orgId != o
    ensures s.orgs[o].subscription.value.periodEnd == Some(s.grants[k].until)
    ensures EndBy(s.grants, o, s.grants[k].until)
  {
    var i :| 0 <= i < |s.grants| && s.grants[i].orgId == o && s.grants[i].until == s.orgs[o].subscription.value.periodEnd.value;
  }

  // ---------- What a row's life allows ----------

  /** Only an applied payment moves an end date, and nothing puts a row back on trial. */
  lemma RowStep(s: State, e: Event, o: OrgId)
    requires Enabled(s, e) && s.orgs.Keys <= s.named
    requires o in s.orgs && s.orgs[o].subscription.Some?
    ensures o in Next(s, e).orgs && Next(s, e).orgs[o].subscription.Some?
    ensures var before := s.orgs[o].subscription.value;
            var after := Next(s, e).orgs[o].subscription.value;
            && (after.status == TRIALING ==> before.status == TRIALING)
            && (after.periodEnd != before.periodEnd ==>
                  && e.Pay? && e.payment.orgId == Some(o)
                  && e.payment.reference.Some?
                  && e.payment.reference.value !in s.ledger
                  && e.payment.reference.value in Next(s, e).ledger)
  {
    if e.RunSweep? {
      StatementsKeepRow(s.orgs, s.plans, e.batch, s.clock, e.done, o);
    }
  }

  /** Over a whole run: no workspace re-enters its trial, and with no payment its end date never moves. */
  lemma {:induction false} NoSecondTrial(s: State, events: seq<Event>, s': State, o: OrgId)
    requires CacheExact(s) && Run(s, events, s')
    requires o in s.orgs && s.orgs[o].subscription.Some?
    ensures o in s'.orgs && s'.orgs[o].subscription.Some?
    ensures s.orgs[o].subscription.value.status != TRIALING ==> s'.orgs[o].subscription.value.status != TRIALING
    ensures (forall e :: e in events && e.Pay? ==> e.payment.orgId != Some(o)) ==>
              s'.orgs[o].subscription.value.periodEnd == s.orgs[o].subscription.value.periodEnd
    decreases |events|
  {
    if events != [] {
      RowStep(s, events[0], o);
      CacheExactStep(s, events[0]);
      assert events[0] in events;
      assert forall e :: e in events[1..] ==> e in events;
      NoSecondTrial(Next(s, events[0]), events[1..], s', o);
    }
  }
}
