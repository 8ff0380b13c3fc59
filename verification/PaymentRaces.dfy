/**
 `ApplyPayment`'s transaction, statement by statement, under read-committed isolation.  Any number of
 webhook deliveries and browser confirmations interleave with each other, with aborts, and with
 every other writer of subscription rows.
 */
module PaymentRaces {
  import opened Wrappers
  import opened Subscriptions
  import opened Payments

  /**
   How far a transaction has come; `Wrote` holds the row lock of its workspace.  `seen` counts the
   payments committed for the workspace when the transaction read its row.
   */
  datatype Phase =
    | Marked
    | HasRead(existing: Option<Subscription>, seen: nat)
    | Wrote(existing: Option<Subscription>, seen: nat, until: Option<int>, row: Subscription, at: int)

  datatype Tx = Tx(payment: Payment, phase: Phase)

  /** A committed effect, with what its transaction had seen and when it wrote. */
  datatype Commit = Commit(reference: string, orgId: OrgId, row: Subscription, seen: nat, at: int)

  /** The effects on one workspace, in the order of their commits. */
  function CommitsOf(commits: seq<Commit>, o: OrgId): seq<Commit>
    decreases |commits|
  {
    if commits == [] then []
    else
      var c := commits[|commits| - 1];
      CommitsOf(commits[..|commits| - 1], o) + (if c.orgId == o then [c] else [])
  }

  datatype State = State(
    orgs: Organizations,
    ledger: Ledger,
    txs: map<nat, Tx>,
    commits: seq<Commit>,
    clock: int)

  datatype Event =
    | Wait(ms: nat)
    | Insert(id: nat, payment: Payment)
    | ReadRow(id: nat)
    | WriteRow(id: nat)
    | DoCommit(id: nat)
    | Abort(id: nat)
    | Others(orgs: Organizations)

  ghost predicate Init(s: State) {
    s.ledger == map[] && s.txs == map[] && s.commits == []
  }

  /** Two payments that a unique index keeps apart. */
  predicate Clash(p: Payment, q: Payment) {
    p.reference == q.reference || (p.eventId.Some? && p.eventId == q.eventId)
  }

  predicate Locked(s: State, o: OrgId) {
    exists i :: i in s.txs && s.txs[i].phase.Wrote? && s.txs[i].payment.orgId == Some(o)
  }

  predicate InFlight(s: State, id: nat) {
    id in s.txs && WellFormed(s.txs[id].payment) && s.txs[id].payment.orgId.value in s.orgs
  }

  /**
   An insert that clashes with an uncommitted marker waits for that transaction, and a write to a
   locked row waits for its holder; waiting is a step that is not enabled.
   */
  predicate Enabled(s: State, e: Event) {
    match e
    case Wait(_) => true
    case Insert(id, p) =>
      && id !in s.txs && WellFormed(p) && p.orgId.value in s.orgs
      && (forall i :: i in s.txs ==> !Clash(s.txs[i].payment, p))
    case ReadRow(id) => InFlight(s, id) && s.txs[id].phase.Marked?
    case WriteRow(id) => InFlight(s, id) && s.txs[id].phase.HasRead? && !Locked(s, s.txs[id].payment.orgId.value)
    case DoCommit(id) => InFlight(s, id) && s.txs[id].phase.Wrote?
    case Abort(id) => id in s.txs
    case Others(orgs) =>
      && orgs.Keys >= s.orgs.Keys
      && (forall o :: o in s.orgs && Locked(s, o) ==> orgs[o] == s.orgs[o])
  }

  function CommitOf(tx: Tx): Commit
    requires WellFormed(tx.payment) && tx.phase.Wrote?
  {
    Commit(tx.payment.reference.value, tx.payment.orgId.value, tx.phase.row, tx.phase.seen, tx.phase.at)
  }

  function Next(s: State, e: Event): State
    requires Enabled(s, e)
  {
    match e
    case Wait(ms) => s.(clock := s.clock + ms)
    case Insert(id, p) =>
      // The unique indexes reject a marker that is already committed, and the transaction is over.
      if Conflicts(s.ledger, p.reference.value, p.eventId) then s
      else s.(txs := s.txs[id := Tx(p, Marked)])
    case ReadRow(id) =>
      var p := s.txs[id].payment;
      s.(txs := s.txs[id := Tx(p, HasRead(SubscriptionOf(s.orgs, p.orgId.value), |CommitsOf(s.commits, p.orgId.value)|))])
    case WriteRow(id) =>
      var p := s.txs[id].payment;
      var existing := s.txs[id].phase.existing;
      var until := PaidUntil(p, PeriodEnd(existing), s.clock);
      var row := PaidRow(p, SubscriptionOf(s.orgs, p.orgId.value), until);
      s.(txs := s.txs[id := Tx(p, Wrote(existing, s.txs[id].phase.seen, until, row, s.clock))])
    case DoCommit(id) =>
      var p := s.txs[id].payment;
      var orgId, row := p.orgId.value, s.txs[id].phase.row;
      s.(orgs := s.orgs[orgId := s.orgs[orgId].(subscription := Some(row))],
         ledger := s.ledger[p.reference.value := Marker(orgId, p.eventId, p.planCode.value, p.once, s.txs[id].phase.until)],
         txs := s.txs - {id},
         commits := s.commits + [CommitOf(s.txs[id])])
    case Abort(id) => s.(txs := s.txs - {id})
    case Others(orgs) => s.(orgs := orgs)
  }

  ghost predicate Run(s: State, events: seq<Event>, s': State)
    decreases |events|
  {
    if events == [] then s' == s
    else Enabled(s, events[0]) && Run(Next(s, events[0]), events[1..], s')
  }

  // ---------- Exactly once, in every interleaving ----------

  /** Every open transaction holds a marker that clashes with no committed one and no other open one. */
  ghost predicate TxsInv(s: State) {
    && (forall i :: i in s.txs ==>
          && InFlight(s, i)
          && !Conflicts(s.ledger, s.txs[i].payment.reference.value, s.txs[i].payment.eventId)
          && (s.txs[i].phase.Wrote? && s.txs[i].payment.once ==> WroteMonth(s.txs[i])))
    && (forall i, j :: i in s.txs && j in s.txs && i != j ==> !Clash(s.txs[i].payment, s.txs[j].payment))
  }

  ghost predicate WroteMonth(tx: Tx)
    requires tx.phase.Wrote?
  {
    && tx.phase.until == PaidUntil(tx.payment, PeriodEnd(tx.phase.existing), tx.phase.at)
    && tx.phase.row.periodEnd == tx.phase.until
  }

  /** The committed markers are exactly the committed effects, one each. */
  ghost predicate CommitsInv(s: State) {
    && (forall k :: 0 <= k < |s.commits| ==>
          s.commits[k].reference in s.ledger && s.ledger[s.commits[k].reference].orgId == s.commits[k].orgId)
    && (forall r :: r in s.ledger ==> exists k :: 0 <= k < |s.commits| && s.commits[k].reference == r)
    && (forall j, k :: 0 <= j < k < |s.commits| ==> s.commits[j].reference != s.commits[k].reference)
  }

  ghost predicate Inv(s: State) {
    TxsInv(s) && CommitsInv(s)
  }

  lemma CommitKeepsCommits(s: State, s': State, c: Commit)
    requires CommitsInv(s) && c.reference !in s.ledger
    requires s'.commits == s.commits + [c]
    requires c.reference in s'.ledger && s'.ledger[c.reference].orgId == c.orgId
    requires s'.ledger == s.ledger[c.reference := s'.ledger[c.reference]]
    ensures CommitsInv(s')
  {
    assert s'.commits[|s.commits|] == c;
    forall r | r in s'.ledger
      ensures exists k :: 0 <= k < |s'.commits| && s'.commits[k].reference == r
    {
      if r != c.reference {
        var k :| 0 <= k < |s.commits| && s.commits[k].reference == r;
        assert s'.commits[k].reference == r;
      }
    }
  }

  /** The markers still open clash with the one that has just been committed no more than before. */
  lemma CommitKeepsTxs(s: State, id: nat)
    requires TxsInv(s) && Enabled(s, DoCommit(id))
    ensures TxsInv(Next(s, DoCommit(id)))
  {
    var s' := Next(s, DoCommit(id));
    var p := s.txs[id].payment;
    forall i | i in s'.txs
      ensures !Conflicts(s'.ledger, s'.txs[i].payment.reference.value, s'.txs[i].payment.eventId)
    {
      var q := s.txs[i].payment;
      assert s'.txs[i] == s.txs[i] && !Clash(q, p);
    }
  }

  lemma InvStep(s: State, e: Event)
    requires Inv(s) && Enabled(s, e)
    ensures Inv(Next(s, e))
  {
    if e.DoCommit? {
      var tx := s.txs[e.id];
      CommitKeepsTxs(s, e.id);
      CommitKeepsCommits(s, Next(s, e), CommitOf(tx));
    }
  }

  lemma {:induction false} InvRun(s: State, events: seq<Event>, s': State)
    requires Inv(s) && Run(s, events, s')
    ensures Inv(s')
    decreases |events|
  {
    if events != [] {
      InvStep(s, events[0]);
      InvRun(Next(s, events[0]), events[1..], s');
    }
  }

  /** Each reference takes effect at most once, and its marker exists exactly when it took effect. */
  lemma ExactlyOnce(start: State, events: seq<Event>, s: State)
    requires Init(start) && Run(start, events, s)
    ensures forall j, k :: 0 <= j < k < |s.commits| ==> s.commits[j].reference != s.commits[k].reference
    ensures forall r :: r in s.ledger <==> exists k :: 0 <= k < |s.commits| && s.commits[k].reference == r
  {
    InvRun(start, events, s);
  }

  /** A committed reference is spent for good: no later run commits it again or moves its marker. */
  lemma {:induction false} SpentForGood(s: State, events: seq<Event>, s': State, r: string)
    requires Inv(s) && Run(s, events, s') && r in s.ledger
    ensures r in s'.ledger && s'.ledger[r] == s.ledger[r]
    ensures |s.commits| <= |s'.commits|
    ensures forall k :: |s.commits| <= k < |s'.commits| ==> s'.commits[k].reference != r
    decreases |events|
  {
    if events != [] {
      InvStep(s, events[0]);
      var mid := Next(s, events[0]);
      SpentForGood(mid, events[1..], s', r);
      CommitsGrow(mid, events[1..], s');
    }
  }

  lemma {:induction false} CommitsGrow(s: State, events: seq<Event>, s': State)
    requires Run(s, events, s')
    ensures s.commits <= s'.commits
    decreases |events|
  {
    if events != [] {
      CommitsGrow(Next(s, events[0]), events[1..], s');
    }
  }

  // ---------- When a month stacks ----------

  function EndOr0(periodEnd: Option<int>): int {
    if periodEnd.Some? then periodEnd.value else 0
  }

  function EndOf(s: State, o: OrgId): Option<int> {
    PeriodEnd(SubscriptionOf(s.orgs, o))
  }

  /** This event commits no write to the end date of `o`. */
  predicate LeavesEnd(s: State, e: Event, o: OrgId) {
    && (e.DoCommit? && e.id in s.txs ==> s.txs[e.id].payment.orgId != Some(o))
    && (e.Others? ==> PeriodEnd(SubscriptionOf(e.orgs, o)) == EndOf(s, o))
  }

  ghost predicate NoEndWrites(s: State, events: seq<Event>, o: OrgId)
    decreases |events|
  {
    events != [] ==>
      Enabled(s, events[0]) && LeavesEnd(s, events[0], o) && NoEndWrites(Next(s, events[0]), events[1..], o)
  }

  /** What `id` has read of its workspace's end date, if it has, is what is committed. */
  predicate HasCurrentEnd(s: State, id: nat, o: OrgId) {
    id in s.txs && s.txs[id].payment.orgId == Some(o) && !s.txs[id].phase.Marked? ==>
      PeriodEnd(s.txs[id].phase.existing) == EndOf(s, o)
  }

  lemma {:induction false} EndStays(s: State, e: Event, o: OrgId)
    requires Enabled(s, e) && LeavesEnd(s, e, o)
    ensures EndOf(Next(s, e), o) == EndOf(s, o)
  {
  }

  lemma {:induction false} CurrentEndStays(s: State, events: seq<Event>, s': State, id: nat, o: OrgId)
    requires NoEndWrites(s, events, o) && Run(s, events, s') && HasCurrentEnd(s, id, o)
    ensures HasCurrentEnd(s', id, o)
    decreases |events|
  {
    if events != [] {
      EndStays(s, events[0], o);
      CurrentEndStays(Next(s, events[0]), events[1..], s', id, o);
    }
  }

  /**
   Whatever else happens, a month whose workspace's end date nobody else writes between its read and its
   commit lands whole on top of the committed end date.
   */
  lemma {:induction false} UndisturbedMonthStacks(start: State, before: seq<Event>, s: State, id: nat, events: seq<Event>, s': State, o: OrgId)
    requires Init(start) && Run(start, before, s)
    requires Enabled(s, ReadRow(id)) && s.txs[id].payment.orgId == Some(o)
    requires NoEndWrites(Next(s, ReadRow(id)), events, o) && Run(Next(s, ReadRow(id)), events, s')
    requires Enabled(s', DoCommit(id)) && s'.txs[id].payment.orgId == Some(o) && s'.txs[id].payment.once
    ensures EndOf(Next(s', DoCommit(id)), o) == Some(MonthStart(EndOf(s', o), s'.txs[id].phase.at) + ONE_MONTH_MS)
  {
    InvRun(start, before, s);
    InvStep(s, ReadRow(id));
    InvRun(Next(s, ReadRow(id)), events, s');
    CurrentEndStays(Next(s, ReadRow(id)), events, s', id, o);
    assert InFlight(s', id) && WroteMonth(s'.txs[id]);
  }
}
