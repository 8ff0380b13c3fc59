/**
 The rows the billing code reads and writes: workspaces, each outer joined with its
 subscription (unique per workspace), and the payment markers.  Times are integer milliseconds.
 */
module Subscriptions {
  import opened Wrappers

  type OrgId = string

  datatype Status = TRIALING | ACTIVE | PAST_DUE | CANCELED

  /** `code` is the provider's subscription code: present when a card can be charged again. */
  datatype Subscription = Subscription(
    status: Status,
    periodEnd: Option<int>,
    code: Option<string>,
    planCode: string)

  datatype Organization = Organization(slug: string, subscription: Option<Subscription>)

  type Organizations = map<OrgId, Organization>

  /** The row that records one provider reference as spent. */
  datatype Marker = Marker(orgId: OrgId, eventId: Option<string>, planCode: string, once: bool, paidUntil: Option<int>)

  /** Markers by provider reference, which is unique. */
  type Ledger = map<string, Marker>

  const HOUR_MS: int := 3600 * 1000
  const DAY_MS: int := 24 * HOUR_MS
  const TRIAL_MS: int := 24 * HOUR_MS

  const BILLING_EXEMPT_SLUGS: set<string> := {"godeye", "patampoa", "mjini-collection"}

  function SubscriptionOf(orgs: Organizations, orgId: OrgId): Option<Subscription> {
    if orgId in orgs then orgs[orgId].subscription else None
  }

  /** The shared tables, as every instance of the service sees them. */
  class Database {
    var orgs: Organizations
    var plans: set<string>
    var ledger: Ledger

    constructor ()
      ensures orgs == map[] && plans == {} && ledger == map[]
    {
      orgs, plans, ledger := map[], {}, map[];
    }
  }
}
