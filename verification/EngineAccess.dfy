/**
 The worker's copy of the access rule: a SQL predicate over the outer join of workspaces and
 subscriptions, evaluated in SQL's three-valued logic, against the decision of the API.
 */
module EngineAccess {
  import opened Wrappers
  import opened Subscriptions
  import opened WorkspaceAccess

  // ---------- A fragment of SQL ----------

  datatype Value = Null | Text(text: string) | Timestamp(ms: int)

  datatype Tri = True | False | Unknown

  datatype Column = OrgSlug | SubOrgId | SubStatus | SubPeriodEnd | SubCode

  datatype Predicate =
    | InList(col: Column, values: seq<string>)
    | NotInList(col: Column, values: seq<string>)
    | IsNull(col: Column)
    | IsNotNull(col: Column)
    | EqualsText(col: Column, value: string)
    | AtMost(col: Column, ms: int)
    | And(all: seq<Predicate>)
    | Or(any: seq<Predicate>)

  type Row = Column -> Value

  function Not3(a: Tri): Tri {
    match a case True => False case False => True case Unknown => Unknown
  }

  function And3(a: Tri, b: Tri): Tri {
    if a == False || b == False then False else if a == True && b == True then True else Unknown
  }

  function Or3(a: Tri, b: Tri): Tri {
    Not3(And3(Not3(a), Not3(b)))
  }

  function Of(b: bool): Tri {
    if b then True else False
  }

  /** `x IN (v1, ..., vn)`: UNKNOWN when x is NULL. */
  function In3(v: Value, values: seq<string>): Tri {
    match v
    case Null => Unknown
    case Text(t) => Of(t in values)
    case Timestamp(_) => False
  }

  function Eval(p: Predicate, row: Row): Tri
    decreases p, 0
  {
    match p
    case InList(col, values) => In3(row(col), values)
    case NotInList(col, values) => Not3(In3(row(col), values))
    case IsNull(col) => Of(row(col).Null?)
    case IsNotNull(col) => Of(!row(col).Null?)
    case EqualsText(col, value) => In3(row(col), [value])
    case AtMost(col, ms) =>
      (match row(col)
       case Timestamp(t) => Of(t <= ms)
       case Null => Unknown
       case Text(_) => False)
    case And(all) => EvalAnd(all, row)
    case Or(any) => EvalOr(any, row)
  }

  function EvalAnd(all: seq<Predicate>, row: Row): Tri
    decreases all, 1
  {
    if all == [] then True else And3(Eval(all[0], row), EvalAnd(all[1..], row))
  }

  function EvalOr(any: seq<Predicate>, row: Row): Tri
    decreases any, 1
  {
    if any == [] then False else Or3(Eval(any[0], row), EvalOr(any[1..], row))
  }

  // ---------- The query ----------

  const EXEMPT: seq<string> := ["godeye", "patampoa", "mjini-collection"]

  /** The WHERE clause of the worker's query. */
  function LockedWhere(now: int): Predicate {
    And([NotInList(OrgSlug, EXEMPT),
         IsNotNull(SubOrgId),
         Or([InList(SubStatus, ["PAST_DUE", "CANCELED"]),
             And([EqualsText(SubStatus, "TRIALING"), IsNotNull(SubPeriodEnd), AtMost(SubPeriodEnd, now)]),
             And([EqualsText(SubStatus, "ACTIVE"), IsNull(SubCode), IsNotNull(SubPeriodEnd), AtMost(SubPeriodEnd, now)])])])
  }

  function StatusText(status: Status): string {
    match status
    case TRIALING => "TRIALING"
    case ACTIVE => "ACTIVE"
    case PAST_DUE => "PAST_DUE"
    case CANCELED => "CANCELED"
  }

  /** One row of the outer join: every subscription column is NULL when there is no subscription. */
  function Joined(orgId: OrgId, org: Organization): Row {
    (col: Column) =>
      match col
      case OrgSlug => Text(org.slug)
      case SubOrgId => if org.subscription.Some? then Text(orgId) else Null
      case SubStatus => if org.subscription.Some? then Text(StatusText(org.subscription.value.status)) else Null
      case SubPeriodEnd =>
        if org.subscription.Some? && org.subscription.value.periodEnd.Some?
        then Timestamp(org.subscription.value.periodEnd.value) else Null
      case SubCode =>
        if org.subscription.Some? && org.subscription.value.code.Some?
        then Text(org.subscription.value.code.value) else Null
  }

  /** A row is selected only when its predicate is TRUE, not when it is UNKNOWN. */
  function LockedOrgIds(orgs: Organizations, now: int): set<OrgId> {
    set o | o in orgs && Eval(LockedWhere(now), Joined(o, orgs[o])) == True
  }

  // ---------- The two rules agree ----------

  /** The one row the two sides read differently: an empty code is NULL to neither, yet falsy to the API. */
  predicate EmptyCodeEnded(org: Organization, now: int) {
    && !IsExempt(org.slug)
    && org.subscription.Some?
    && org.subscription.value.status == ACTIVE
    && org.subscription.value.code == Some("")
    && Ended(org.subscription.value.periodEnd, now)
  }

  lemma AndTrue(all: seq<Predicate>, row: Row)
    ensures EvalAnd(all, row) == True <==> forall i :: 0 <= i < |all| ==> Eval(all[i], row) == True
  {
    if all != [] {
      AndTrue(all[1..], row);
      assert forall i :: 0 < i < |all| ==> all[i] == all[1..][i - 1];
    }
  }

  lemma OrTrue(any: seq<Predicate>, row: Row)
    ensures EvalOr(any, row) == True <==> exists i :: 0 <= i < |any| && Eval(any[i], row) == True
  {
    if any != [] {
      OrTrue(any[1..], row);
      assert forall i :: 0 < i < |any| ==> any[i] == any[1..][i - 1];
    }
  }

  /** The disjunction over statuses, read as a condition on the subscription. */
  lemma StatusClause(orgId: OrgId, org: Organization, now: int)
    requires org.subscription.Some?
    ensures var sub := org.subscription.value;
            Eval(LockedWhere(now).all[2], Joined(orgId, org)) == True
            <==> || sub.status == PAST_DUE || sub.status == CANCELED
                 || (sub.status == TRIALING && Ended(sub.periodEnd, now))
                 || (sub.status == ACTIVE && sub.code.None? && Ended(sub.periodEnd, now))
  {
    var row := Joined(orgId, org);
    var sub := org.subscription.value;
    var any := LockedWhere(now).all[2].any;
    OrTrue(any, row);
    StatusTextInjective(sub.status);
    assert Eval(any[0], row) == True <==> sub.status == PAST_DUE || sub.status == CANCELED;
    assert Eval(any[1], row) == True <==> sub.status == TRIALING && Ended(sub.periodEnd, now) by {
      var all := any[1].all;
      AndTrue(all, row);
      assert |all| == 3;
      assert Eval(all[0], row) == In3(Text(StatusText(sub.status)), ["TRIALING"]);
      assert Eval(all[1], row) == Of(sub.periodEnd.Some?);
      assert sub.periodEnd.Some? ==> Eval(all[2], row) == Of(sub.periodEnd.value <= now);
    }
    assert Eval(any[2], row) == True <==> sub.status == ACTIVE && sub.code.None? && Ended(sub.periodEnd, now) by {
      var all := any[2].all;
      AndTrue(all, row);
      assert |all| == 4;
      assert Eval(all[0], row) == In3(Text(StatusText(sub.status)), ["ACTIVE"]);
      assert Eval(all[1], row) == Of(sub.code.None?);
      assert Eval(all[2], row) == Of(sub.periodEnd.Some?);
      assert sub.periodEnd.Some? ==> Eval(all[3], row) == Of(sub.periodEnd.value <= now);
    }
    assert Eval(LockedWhere(now).all[2], row) == EvalOr(any, row);
    assert |any| == 3;
  }

  lemma StatusTextInjective(status: Status)
    ensures StatusText(status) in ["PAST_DUE", "CANCELED"] <==> status == PAST_DUE || status == CANCELED
    ensures StatusText(status) in ["TRIALING"] <==> status == TRIALING
    ensures StatusText(status) in ["ACTIVE"] <==> status == ACTIVE
  {
    assert "PAST_DUE"[0] == 'P' && "CANCELED"[0] == 'C' && "TRIALING"[0] == 'T' && "ACTIVE"[0] == 'A';
  }

  /**
   The worker's query selects exactly the workspaces the API locks, at every moment, except a
   workspace whose ended month carries an empty provider code.
   */
  lemma QueryAgreesWithDecide(orgs: Organizations, now: int, o: OrgId)
    requires o in orgs
    ensures o in LockedOrgIds(orgs, now)
            <==> Decide(Some(orgs[o]), now).locked && !EmptyCodeEnded(orgs[o], now)
  {
    var row := Joined(o, orgs[o]);
    var where := LockedWhere(now);
    AndTrue(where.all, row);
    assert Eval(where, row) == EvalAnd(where.all, row);
    assert Eval(where.all[0], row) == Not3(In3(Text(orgs[o].slug), EXEMPT));
    assert orgs[o].slug in EXEMPT <==> IsExempt(orgs[o].slug);
    assert Eval(where.all[1], row) == Of(orgs[o].subscription.Some?);
    if orgs[o].subscription.Some? {
      StatusClause(o, orgs[o], now);
    }
  }

  /** So the two rules agree on every workspace exactly when no ended month carries an empty code. */
  lemma RulesAgreeIff(orgs: Organizations, now: int)
    ensures (LockedOrgIds(orgs, now) == set o | o in orgs && Decide(Some(orgs[o]), now).locked)
            <==> forall o :: o in orgs ==> !EmptyCodeEnded(orgs[o], now)
  {
    forall o | o in orgs
      ensures o in LockedOrgIds(orgs, now) <==> Decide(Some(orgs[o]), now).locked && !EmptyCodeEnded(orgs[o], now)
      ensures EmptyCodeEnded(orgs[o], now) ==> Decide(Some(orgs[o]), now).locked
    {
      QueryAgreesWithDecide(orgs, now, o);
    }
    var locked := set o | o in orgs && Decide(Some(orgs[o]), now).locked;
    if o :| o in orgs && EmptyCodeEnded(orgs[o], now) {
      assert o in locked && o !in LockedOrgIds(orgs, now);
    }
  }
}
