/**
 Turning a provider payment into access, exactly once: the webhook and the customer's own return
 trip both end in `ApplyPayment`, whose transaction writes the marker before the effect.
 */
module Payments {
  import opened Arithmetic
  import opened Wrappers
  import opened Subscriptions
  import opened WorkspaceAccess

  const ONE_MONTH_MS: int := 31 * DAY_MS

  /**
   The fields of a provider payload that matter, already read and type checked: a field of the wrong
   type is None, and `nextPaymentDate` is None when it does not parse as a date.
   */
  datatype Payment = Payment(
    orgId: Option<OrgId>,
    planCode: Option<string>,
    reference: Option<string>,
    eventId: Option<string>,
    once: bool,
    nextPaymentDate: Option<int>,
    subscriptionCode: Option<string>)

  /** `Refused` and `Duplicate` answer false, `Failed` is an exception; none of them changes a row. */
  datatype Outcome = Applied(paidUntil: Option<int>) | Refused | Duplicate | Failed

  predicate Missing(s: Option<string>) {
    s.None? || s.value == ""
  }

  predicate WellFormed(p: Payment) {
    !Missing(p.orgId) && !Missing(p.planCode) && !Missing(p.reference)
  }

  /** The two unique indexes: one marker per reference, one per event id that is not null. */
  predicate Conflicts(ledger: Ledger, reference: string, eventId: Option<string>) {
    reference in ledger || (eventId.Some? && exists r :: r in ledger && ledger[r].eventId == eventId)
  }

  /** Where a bought month starts: now, or the end of what is already paid for. */
  function MonthStart(periodEnd: Option<int>, now: int): int {
    Max(now, if periodEnd.Some? then periodEnd.value else 0)
  }

  function PaidUntil(p: Payment, periodEnd: Option<int>, now: int): Option<int> {
    if p.once then Some(MonthStart(periodEnd, now) + ONE_MONTH_MS) else p.nextPaymentDate
  }

  function PeriodEnd(sub: Option<Subscription>): Option<int> {
    if sub.Some? then sub.value.periodEnd else None
  }

  /** The row the upsert leaves behind.  A payment with no date keeps the date already there. */
  function PaidRow(p: Payment, sub: Option<Subscription>, until: Option<int>): Subscription
    requires p.planCode.Some?
  {
    Subscription(
      ACTIVE,
      if until.Some? then until else PeriodEnd(sub),
      if p.once then None else p.subscriptionCode,
      p.planCode.value)
  }

  function OutcomeOf(orgs: Organizations, plans: set<string>, ledger: Ledger, p: Payment, now: int, aborts: bool): Outcome {
    if !WellFormed(p) then Refused
    else if p.planCode.value !in plans then Refused
    else if aborts then Failed
    else if Conflicts(ledger, p.reference.value, p.eventId) then Duplicate
    else if p.orgId.value !in orgs then Failed
    else Applied(PaidUntil(p, PeriodEnd(SubscriptionOf(orgs, p.orgId.value)), now))
  }

  function OrgsAfter(orgs: Organizations, plans: set<string>, ledger: Ledger, p: Payment, now: int, aborts: bool): Organizations {
    match OutcomeOf(orgs, plans, ledger, p, now, aborts)
    case Applied(until) =>
      var orgId := p.orgId.value;
      orgs[orgId := orgs[orgId].(subscription := Some(PaidRow(p, orgs[orgId].subscription, until)))]
    case _ => orgs
  }

  function LedgerAfter(orgs: Organizations, plans: set<string>, ledger: Ledger, p: Payment, now: int, aborts: bool): Ledger {
    match OutcomeOf(orgs, plans, ledger, p, now, aborts)
    case Applied(until) =>
      ledger[p.reference.value := Marker(p.orgId.value, p.eventId, p.planCode.value, p.once, until)]
    case _ => ledger
  }

  /** Once applied, the same payment is a duplicate for ever: any later delivery changes no row. */
  lemma ReplayChangesNothing(orgs: Organizations, plans: set<string>, ledger: Ledger, p: Payment, now: int,
                             orgs': Organizations, plans': set<string>, ledger': Ledger, p': Payment, later: int, aborts: bool)
    requires OutcomeOf(orgs, plans, ledger, p, now, false).Applied?
    requires LedgerAfter(orgs, plans, ledger, p, now, false).Keys <= ledger'.Keys
    requires p'.reference == p.reference
    ensures !OutcomeOf(orgs', plans', ledger', p', later, aborts).Applied?
    ensures OrgsAfter(orgs', plans', ledger', p', later, aborts) == orgs'
    ensures LedgerAfter(orgs', plans', ledger', p', later, aborts) == ledger'
  {
    assert p.reference.value in LedgerAfter(orgs, plans, ledger, p, now, false).Keys;
  }

  // ---------- Cancellation ----------

  /** The workspaces a cancellation naming `code` may hit: `findFirst` returns one of them. */
  function Holders(orgs: Organizations, code: string): set<OrgId> {
    set o | o in orgs && orgs[o].subscription.Some? && orgs[o].subscription.value.code == Some(code)
  }

  predicate IsPick(orgs: Organizations, code: Option<string>, picked: OrgId) {
    code.Some? && Holders(orgs, code.value) != {} ==> picked in Holders(orgs, code.value)
  }

  function AfterCancel(orgs: Organizations, code: string, picked: OrgId): Organizations {
    if code != "" && picked in Holders(orgs, code)
    then orgs[picked := orgs[picked].(subscription := Some(orgs[picked].subscription.value.(status := CANCELED)))]
    else orgs
  }

  // ---------- The service ----------

  datatype ProviderEvent =
    | ChargeSuccess(payment: Payment)
    | SubscriptionCreate(payment: Payment)
    | SubscriptionDisable(code: Option<string>)
    | SubscriptionNotRenew(code: Option<string>)
    | OtherEvent

  /** The provider's answer to a verify call. */
  datatype VerifyReply = Unreachable | NotSuccessful | Successful(payment: Payment)

  class BillingService {
    const db: Database
    const access: WorkspaceAccessService

    constructor (db: Database, access: WorkspaceAccessService)
      ensures this.db == db && this.access == access
    {
      this.db, this.access := db, access;
    }

    /** `aborts` says that the transaction meets a database error other than a unique violation. */
    method ApplyPayment(p: Payment, now: int, aborts: bool) returns (outcome: Outcome)
      modifies db`orgs, db`ledger, access`cache
      ensures outcome == OutcomeOf(old(db.orgs), db.plans, old(db.ledger), p, now, aborts)
      ensures db.orgs == OrgsAfter(old(db.orgs), db.plans, old(db.ledger), p, now, aborts)
      ensures db.ledger == LedgerAfter(old(db.orgs), db.plans, old(db.ledger), p, now, aborts)
      ensures access.cache == if outcome.Applied? then old(access.cache) - {p.orgId.value} else old(access.cache)
    {
      if Missing(p.orgId) || Missing(p.planCode) {
        return Refused;
      }
      if Missing(p.reference) {
        return Refused;
      }
      if p.planCode.value !in db.plans {
        return Refused;
      }
      if aborts {
        return Failed;
      }
      var orgId, reference := p.orgId.value, p.reference.value;

      // The marker first: if the reference has been applied, nothing after it runs.
      if Conflicts(db.ledger, reference, p.eventId) {
        return Duplicate;
      }
      if orgId !in db.orgs {
        return Failed;
      }
      var ledger := db.ledger[reference := Marker(orgId, p.eventId, p.planCode.value, p.once, None)];
      var existing := db.orgs[orgId].subscription;
      var until := if p.once then Some(MonthStart(PeriodEnd(existing), now) + ONE_MONTH_MS) else p.nextPaymentDate;
      var row := PaidRow(p, existing, until);
      ledger := ledger[reference := ledger[reference].(paidUntil := until)];

      db.orgs, db.ledger := db.orgs[orgId := db.orgs[orgId].(subscription := Some(row))], ledger;
      access.Invalidate(orgId);
      return Applied(until);
    }

    /** The browser's own confirmation.  It can only ever activate the workspace that is asking. */
    method VerifyPayment(orgId: OrgId, reply: VerifyReply, now: int, aborts: bool) returns (outcome: Outcome)
      modifies db`orgs, db`ledger, access`cache
      ensures outcome.Applied? ==> reply.Successful? && reply.payment.orgId == Some(orgId)
      ensures reply.Successful? && reply.payment.orgId == Some(orgId) ==>
                && outcome == OutcomeOf(old(db.orgs), db.plans, old(db.ledger), reply.payment, now, aborts)
                && db.orgs == OrgsAfter(old(db.orgs), db.plans, old(db.ledger), reply.payment, now, aborts)
                && db.ledger == LedgerAfter(old(db.orgs), db.plans, old(db.ledger), reply.payment, now, aborts)
      ensures forall o :: o != orgId ==> Lookup(db.orgs, o) == Lookup(old(db.orgs), o)
      ensures !outcome.Applied? ==> db.orgs == old(db.orgs) && db.ledger == old(db.ledger) && access.cache == old(access.cache)
      ensures outcome.Applied? ==> access.cache == old(access.cache) - {orgId}
    {
      match reply
      case Unreachable => return Failed;
      case NotSuccessful => return Refused;
      case Successful(p) =>
        if p.orgId != Some(orgId) {
          return Failed;
        }
        outcome := ApplyPayment(p, now, aborts);
    }

    /** `picked` is the row `findFirst` returns when several share a code. */
    method Cancel(code: Option<string>, picked: OrgId)
      requires IsPick(db.orgs, code, picked)
      modifies db`orgs, access`cache
      ensures db.orgs == if code.Some? then AfterCancel(old(db.orgs), code.value, picked) else old(db.orgs)
      ensures access.cache == if !Missing(code) && picked in Holders(old(db.orgs), code.value)
                              then old(access.cache) - {picked} else old(access.cache)
    {
      if Missing(code) {
        return;
      }
      if picked in Holders(db.orgs, code.value) {
        var sub := db.orgs[picked].subscription.value;
        db.orgs := db.orgs[picked := db.orgs[picked].(subscription := Some(sub.(status := CANCELED)))];
        access.Invalidate(picked);
      }
    }

    method HandlePaystackEvent(event: ProviderEvent, picked: OrgId, now: int, aborts: bool) returns (outcome: Option<Outcome>)
      requires event.SubscriptionDisable? || event.SubscriptionNotRenew? ==> IsPick(db.orgs, event.code, picked)
      modifies db`orgs, db`ledger, access`cache
      ensures event.ChargeSuccess? || event.SubscriptionCreate? ==>
                && outcome == Some(OutcomeOf(old(db.orgs), db.plans, old(db.ledger), event.payment, now, aborts))
                && db.orgs == OrgsAfter(old(db.orgs), db.plans, old(db.ledger), event.payment, now, aborts)
                && db.ledger == LedgerAfter(old(db.orgs), db.plans, old(db.ledger), event.payment, now, aborts)
      ensures event.SubscriptionDisable? || event.SubscriptionNotRenew? ==>
                && db.ledger == old(db.ledger)
                && db.orgs == if event.code.Some? then AfterCancel(old(db.orgs), event.code.value, picked) else old(db.orgs)
      ensures event.OtherEvent? ==> db.orgs == old(db.orgs) && db.ledger == old(db.ledger) && access.cache == old(access.cache)
      // The workspace that changed loses its cached answer, and nobody else does.
      ensures event.ChargeSuccess? || event.SubscriptionCreate? ==>
                access.cache == if outcome.value.Applied? then old(access.cache) - {event.payment.orgId.value} else old(access.cache)
      ensures event.SubscriptionDisable? || event.SubscriptionNotRenew? ==>
                access.cache == if !Missing(event.code) && picked in Holders(old(db.orgs), event.code.value)
                                then old(access.cache) - {picked} else old(access.cache)
    {
      match event
      case ChargeSuccess(p) =>
        var applied := ApplyPayment(p, now, aborts);
        return Some(applied);
      case SubscriptionCreate(p) =>
        var applied := ApplyPayment(p, now, aborts);
        return Some(applied);
      case SubscriptionDisable(code) =>
        Cancel(code, picked);
        return None;
      case SubscriptionNotRenew(code) =>
        Cancel(code, picked);
        return None;
      case OtherEvent =>
        return None;
    }
  }
}
