/**
 Single months bought by transactions that overlap: what each adds depends on which payments it had
 seen when it read the end date.  The first half is about the sequence of months alone, the second
 ties it to the runs of the payment transaction.
 */
module MonthRaces {
  import opened Arithmetic
  import opened Wrappers
  import opened Subscriptions
  import opened Payments
  import opened PaymentRaces

  /** One committed month: how many earlier ones its transaction had seen, and when it wrote. */
  datatype Month = Month(seen: nat, at: int)

  /** Nobody sees the future, and the row lock puts the writes in the order of the commits. */
  ghost predicate WellOrdered(months: seq<Month>) {
    && (forall k :: 0 <= k < |months| ==> months[k].seen <= k)
    && (forall j, k :: 0 <= j <= k < |months| ==> months[j].at <= months[k].at)
  }

  /** The end date after the first `n` commits; `first` is the one before them. */
  function EndAfter(first: int, months: seq<Month>, n: nat): int
    requires WellOrdered(months) && n <= |months|
    decreases n, 0
  {
    if n == 0 then first else Start(first, months, n - 1) + ONE_MONTH_MS
  }

  /** Month `k` starts at its write, or at the end date it had seen. */
  function Start(first: int, months: seq<Month>, k: nat): int
    requires WellOrdered(months) && k < |months|
    decreases k, 1
  {
    Max(months[k].at, EndAfter(first, months, months[k].seen))
  }

  function Finish(first: int, months: seq<Month>, k: nat): int
    requires WellOrdered(months) && k < |months|
  {
    Start(first, months, k) + ONE_MONTH_MS
  }

  /** No moment is paid for twice, so every month bought is a month served. */
  ghost predicate Conserved(first: int, months: seq<Month>)
    requires WellOrdered(months)
  {
    forall j, k :: 0 <= j < k < |months| ==>
      Finish(first, months, j) <= Start(first, months, k) || Finish(first, months, k) <= Start(first, months, j)
  }

  /** Month `j` was committed between the read and the commit of `k`, and had not run out when `k` wrote. */
  predicate Missed(first: int, months: seq<Month>, j: int, k: int)
    requires WellOrdered(months)
  {
    0 <= j < k < |months| && months[k].seen <= j && months[k].at < Finish(first, months, j)
  }

  ghost predicate NoneMissed(first: int, months: seq<Month>, n: nat)
    requires WellOrdered(months)
  {
    forall j, k :: Missed(first, months, j, k) ==> n <= k
  }

  lemma {:induction false} StartsAfterFirst(first: int, months: seq<Month>, k: nat)
    requires WellOrdered(months) && k < |months|
    ensures first <= Start(first, months, k)
    decreases k
  {
    var seen := months[k].seen;
    if seen > 0 {
      StartsAfterFirst(first, months, seen - 1);
    }
  }

  /** While nothing is missed, every month starts after all earlier ones have ended. */
  lemma {:induction false} StacksUpTo(first: int, months: seq<Month>, j: nat, k: nat)
    requires WellOrdered(months) && j < k < |months| && NoneMissed(first, months, k + 1)
    ensures Finish(first, months, j) <= Start(first, months, k)
    decreases k
  {
    var seen := months[k].seen;
    if seen <= j {
      assert !Missed(first, months, j, k);
    } else if j < seen - 1 {
      StacksUpTo(first, months, j, seen - 1);
    }
  }

  /** What any month had seen ends no later than the month committed just before it. */
  lemma {:induction false} SeenEndsBy(first: int, months: seq<Month>, k: nat, n: nat)
    requires WellOrdered(months) && n <= k <= |months| && 0 < k && NoneMissed(first, months, k)
    ensures EndAfter(first, months, n) <= Finish(first, months, k - 1)
  {
    StartsAfterFirst(first, months, k - 1);
    if 0 < n < k {
      StacksUpTo(first, months, n - 1, k - 1);
    }
  }

  /** Going forward from the first month that `k` missed, one of them covers the moment at which `k` starts. */
  lemma {:induction false} SomeMonthCovers(first: int, months: seq<Month>, j: nat, k: nat, i: nat) returns (c: nat)
    requires WellOrdered(months) && Missed(first, months, j, k) && NoneMissed(first, months, k)
    requires months[k].seen <= i < k && Start(first, months, i) <= Start(first, months, k)
    ensures c < k && Start(first, months, c) <= Start(first, months, k) < Finish(first, months, c)
    decreases k - i
  {
    if Start(first, months, k) < Finish(first, months, i) {
      c := i;
    } else if i + 1 < k {
      SeenEndsBy(first, months, i + 1, months[i + 1].seen);
      c := SomeMonthCovers(first, months, j, k, i + 1);
    } else {
      // Then everything had ended, month `j` too.
      if j < i {
        StacksUpTo(first, months, j, i);
      }
      StartsAfterFirst(first, months, i);
      if 0 < months[k].seen {
        StacksUpTo(first, months, months[k].seen - 1, i);
      }
      assert false;
    }
  }

  lemma {:induction false} FirstMissCollides(first: int, months: seq<Month>, j: nat, k: nat)
    requires WellOrdered(months) && Missed(first, months, j, k) && NoneMissed(first, months, k)
    ensures !Conserved(first, months)
  {
    var r := months[k].seen;
    if r > 0 {
      SeenEndsBy(first, months, r, months[r].seen);
    }
    var c := SomeMonthCovers(first, months, j, k, r);
    assert Finish(first, months, k) > Start(first, months, c);
  }

  lemma {:induction false} MissMeansCollision(first: int, months: seq<Month>, j: nat, k: nat)
    requires WellOrdered(months) && Missed(first, months, j, k)
    ensures !Conserved(first, months)
    decreases k
  {
    if NoneMissed(first, months, k) {
      FirstMissCollides(first, months, j, k);
    } else {
      var i, n :| Missed(first, months, i, n) && n < k;
      MissMeansCollision(first, months, i, n);
    }
  }

  /**
   Paid time is conserved exactly when no month was committed between another's read and its commit,
   unless it had run out by the time that other one wrote.
   */
  lemma {:induction false} MonthsConservedIff(first: int, months: seq<Month>)
    requires WellOrdered(months)
    ensures Conserved(first, months) <==> forall j, k :: !Missed(first, months, j, k)
  {
    if j, k :| Missed(first, months, j, k) {
      MissMeansCollision(first, months, j, k);
    } else {
      forall j, k | 0 <= j < k < |months|
        ensures Finish(first, months, j) <= Start(first, months, k)
      {
        StacksUpTo(first, months, j, k);
      }
    }
  }

  /** No transaction writes a month or more after a payment it has not seen was written. */
  ghost predicate ShortTransactions(months: seq<Month>) {
    forall j, k :: 0 <= j < k < |months| && months[k].seen <= j ==> months[k].at < months[j].at + ONE_MONTH_MS
  }

  /** With transactions shorter than a month, that is: exactly when every read saw every earlier commit. */
  lemma {:induction false} ConservedIffSerial(first: int, months: seq<Month>)
    requires WellOrdered(months) && ShortTransactions(months)
    ensures Conserved(first, months) <==> forall k :: 0 <= k < |months| ==> months[k].seen == k
  {
    MonthsConservedIff(first, months);
    if k :| 0 <= k < |months| && months[k].seen != k {
      assert Missed(first, months, k - 1, k);
    }
  }

  /** Two months that had seen the same unexpired end date are one and the same month. */
  lemma {:induction false} WholeMonthLost(first: int, months: seq<Month>, j: nat, k: nat)
    requires WellOrdered(months) && j < k < |months| && months[j].seen == months[k].seen
    requires months[k].at <= EndAfter(first, months, months[k].seen)
    ensures Start(first, months, j) == Start(first, months, k) && Finish(first, months, j) == Finish(first, months, k)
  {
  }

  // ---------- The runs of the payment transaction ----------

  function MonthsOf(commits: seq<Commit>): (months: seq<Month>)
    ensures |months| == |commits|
    ensures forall k :: 0 <= k < |commits| ==> months[k] == Month(commits[k].seen, commits[k].at)
  {
    seq(|commits|, k requires 0 <= k < |commits| => Month(commits[k].seen, commits[k].at))
  }

  /** The months committed for `o`. */
  function Bought(s: State, o: OrgId): seq<Month> {
    MonthsOf(CommitsOf(s.commits, o))
  }

  /** `o` buys only single months in this run, and only payments write its end date. */
  ghost predicate BuysMonths(s: State, events: seq<Event>, o: OrgId)
    decreases |events|
  {
    events != [] ==>
      && Enabled(s, events[0])
      && (events[0].Insert? && events[0].payment.orgId == Some(o) ==> events[0].payment.once)
      && (events[0].Others? ==> PeriodEnd(SubscriptionOf(events[0].orgs, o)) == EndOf(s, o))
      && BuysMonths(Next(s, events[0]), events[1..], o)
  }

  lemma {:induction false} PrefixKeepsEnd(first: int, months: seq<Month>, m: Month, n: nat)
    requires WellOrdered(months) && WellOrdered(months + [m]) && n <= |months|
    ensures EndAfter(first, months + [m], n) == EndAfter(first, months, n)
    ensures n < |months| ==> Start(first, months + [m], n) == Start(first, months, n)
    decreases n
  {
    if n > 0 {
      PrefixKeepsEnd(first, months, m, n - 1);
    }
    if n < |months| && months[n].seen < n {
      PrefixKeepsEnd(first, months, m, months[n].seen);
    }
  }

  ghost predicate IsFor(s: State, id: nat, o: OrgId) {
    id in s.txs && s.txs[id].payment.orgId == Some(o)
  }

  /** A transaction holds the end date that the payments it had seen left behind. */
  ghost predicate ReadOk(tx: Tx, first: int, months: seq<Month>, clock: int)
    requires WellOrdered(months)
  {
    && tx.payment.once
    && (!tx.phase.Marked? ==>
          tx.phase.seen <= |months| && EndOr0(PeriodEnd(tx.phase.existing)) == EndAfter(first, months, tx.phase.seen))
    && (tx.phase.Wrote? ==>
          tx.phase.at <= clock && forall k :: 0 <= k < |months| ==> months[k].at <= tx.phase.at)
  }

  ghost predicate OneWriter(s: State, o: OrgId) {
    forall i, j :: IsFor(s, i, o) && IsFor(s, j, o) && s.txs[i].phase.Wrote? && s.txs[j].phase.Wrote? ==> i == j
  }

  ghost predicate RowsShow(commits: seq<Commit>, first: int)
    requires WellOrdered(MonthsOf(commits))
  {
    forall k :: 0 <= k < |commits| ==> commits[k].row.periodEnd == Some(Finish(first, MonthsOf(commits), k))
  }

  /** The committed side: the row's end date is that of the months bought. */
  ghost predicate BoughtOk(commits: seq<Commit>, end: Option<int>, first: int, clock: int) {
    var months := MonthsOf(commits);
    && WellOrdered(months)
    && (forall k :: 0 <= k < |months| ==> months[k].at <= clock)
    && EndOr0(end) == EndAfter(first, months, |months|)
    && RowsShow(commits, first)
  }

  ghost predicate ReadersOk(s: State, o: OrgId, first: int, months: seq<Month>)
    requires WellOrdered(months)
  {
    forall id :: IsFor(s, id, o) ==> ReadOk(s.txs[id], first, months, s.clock)
  }

  ghost predicate MonthsInv(s: State, o: OrgId, first: int) {
    && BoughtOk(CommitsOf(s.commits, o), EndOf(s, o), first, s.clock)
    && OneWriter(s, o)
    && ReadersOk(s, o, first, Bought(s, o))
  }

  lemma {:induction false} CommitAppends(s: State, id: nat, o: OrgId)
    requires Enabled(s, DoCommit(id))
    ensures var s' := Next(s, DoCommit(id));
            CommitsOf(s'.commits, o) ==
              if s.txs[id].payment.orgId == Some(o) then CommitsOf(s.commits, o) + [CommitOf(s.txs[id])] else CommitsOf(s.commits, o)
  {
    var s' := Next(s, DoCommit(id));
    assert s'.commits[..|s'.commits| - 1] == s.commits;
  }

  lemma {:induction false} AppendMonth(first: int, commits: seq<Commit>, c: Commit)
    requires WellOrdered(MonthsOf(commits)) && RowsShow(commits, first)
    requires c.seen <= |commits| && forall k :: 0 <= k < |commits| ==> MonthsOf(commits)[k].at <= c.at
    requires c.row.periodEnd == Some(Max(c.at, EndAfter(first, MonthsOf(commits), c.seen)) + ONE_MONTH_MS)
    ensures MonthsOf(commits + [c]) == MonthsOf(commits) + [Month(c.seen, c.at)]
    ensures WellOrdered(MonthsOf(commits + [c])) && RowsShow(commits + [c], first)
    ensures EndAfter(first, MonthsOf(commits + [c]), |commits| + 1) == c.row.periodEnd.value
  {
    var months, m := MonthsOf(commits), Month(c.seen, c.at);
    assert MonthsOf(commits + [c]) == months + [m];
    assert WellOrdered(months + [m]);
    PrefixKeepsEnd(first, months, m, c.seen);
    forall k | 0 <= k < |commits|
      ensures (commits + [c])[k].row.periodEnd == Some(Finish(first, months + [m], k))
    {
      PrefixKeepsEnd(first, months, m, k);
    }
  }

  lemma {:induction false} AppendKeepsReader(tx: Tx, first: int, months: seq<Month>, m: Month, clock: int)
    requires WellOrdered(months) && WellOrdered(months + [m])
    requires ReadOk(tx, first, months, clock) && !tx.phase.Wrote?
    ensures ReadOk(tx, first, months + [m], clock)
  {
    if tx.phase.HasRead? {
      PrefixKeepsEnd(first, months, m, tx.phase.seen);
    }
  }

  lemma {:induction false} OwnCommitIsNext(s: State, id: nat, o: OrgId, first: int)
    requires Inv(s) && MonthsInv(s, o, first) && Enabled(s, DoCommit(id)) && IsFor(s, id, o)
    ensures var c := CommitOf(s.txs[id]);
            && c.seen <= |CommitsOf(s.commits, o)|
            && (forall k :: 0 <= k < |Bought(s, o)| ==> Bought(s, o)[k].at <= c.at) && c.at <= s.clock
            && c.row.periodEnd == Some(Max(c.at, EndAfter(first, Bought(s, o), c.seen)) + ONE_MONTH_MS)
  {
    assert InFlight(s, id) && WroteMonth(s.txs[id]);
    assert ReadOk(s.txs[id], first, Bought(s, o), s.clock);
  }

  lemma {:induction false} OwnCommitKeepsBought(s: State, id: nat, o: OrgId, first: int)
    requires Inv(s) && MonthsInv(s, o, first) && Enabled(s, DoCommit(id)) && IsFor(s, id, o)
    ensures var s' := Next(s, DoCommit(id));
            && CommitsOf(s'.commits, o) == CommitsOf(s.commits, o) + [CommitOf(s.txs[id])]
            && BoughtOk(CommitsOf(s'.commits, o), EndOf(s', o), first, s'.clock)
  {
    var s' := Next(s, DoCommit(id));
    CommitAppends(s, id, o);
    OwnCommitIsNext(s, id, o, first);
    AppendMonth(first, CommitsOf(s.commits, o), CommitOf(s.txs[id]));
    assert EndOf(s', o) == CommitOf(s.txs[id]).row.periodEnd;
  }

  lemma {:induction false} OwnCommitKeepsReader(s: State, id: nat, o: OrgId, first: int, i: nat, commits: seq<Commit>)
    requires Inv(s) && MonthsInv(s, o, first) && Enabled(s, DoCommit(id)) && IsFor(s, id, o)
    requires IsFor(s, i, o) && i != id
    requires commits == CommitsOf(s.commits, o) + [CommitOf(s.txs[id])] && WellOrdered(MonthsOf(commits))
    ensures ReadOk(s.txs[i], first, MonthsOf(commits), s.clock)
  {
    var c := CommitOf(s.txs[id]);
    assert ReadOk(s.txs[i], first, Bought(s, o), s.clock);
    assert MonthsOf(commits) == Bought(s, o) + [Month(c.seen, c.at)];
    assert !s.txs[i].phase.Wrote?;
    AppendKeepsReader(s.txs[i], first, Bought(s, o), Month(c.seen, c.at), s.clock);
  }

  lemma {:induction false} OwnCommitKeepsMonths(s: State, id: nat, o: OrgId, first: int)
    requires Inv(s) && MonthsInv(s, o, first) && Enabled(s, DoCommit(id)) && IsFor(s, id, o)
    ensures MonthsInv(Next(s, DoCommit(id)), o, first)
  {
    var s' := Next(s, DoCommit(id));
    OwnCommitKeepsBought(s, id, o, first);
    StepKeepsOneWriter(s, DoCommit(id), o);
    forall i | IsFor(s', i, o)
      ensures ReadOk(s'.txs[i], first, Bought(s', o), s'.clock)
    {
      OwnCommitKeepsReader(s, id, o, first, i, CommitsOf(s'.commits, o));
    }
  }

  /** A step that leaves the committed months of `o` alone. */
  lemma {:induction false} QuietStepKeepsBought(s: State, e: Event, o: OrgId, first: int)
    requires Inv(s) && MonthsInv(s, o, first) && Enabled(s, e)
    requires e.DoCommit? ==> !IsFor(s, e.id, o)
    requires e.Others? ==> PeriodEnd(SubscriptionOf(e.orgs, o)) == EndOf(s, o)
    ensures CommitsOf(Next(s, e).commits, o) == CommitsOf(s.commits, o)
    ensures BoughtOk(CommitsOf(Next(s, e).commits, o), EndOf(Next(s, e), o), first, Next(s, e).clock)
  {
    if e.DoCommit? {
      CommitAppends(s, e.id, o);
    }
    EndStays(s, e, o);
    BoughtLater(CommitsOf(s.commits, o), EndOf(s, o), first, s.clock, Next(s, e).clock);
  }

  lemma {:induction false} BoughtLater(commits: seq<Commit>, end: Option<int>, first: int, clock: int, later: int)
    requires BoughtOk(commits, end, first, clock) && clock <= later
    ensures BoughtOk(commits, end, first, later)
  {
  }

  lemma {:induction false} QuietStepKeepsReader(s: State, e: Event, o: OrgId, first: int, i: nat)
    requires Inv(s) && MonthsInv(s, o, first) && Enabled(s, e)
    requires e.Insert? && e.payment.orgId == Some(o) ==> e.payment.once
    requires e.DoCommit? ==> !IsFor(s, e.id, o)
    requires IsFor(Next(s, e), i, o)
    ensures ReadOk(Next(s, e).txs[i], first, Bought(s, o), Next(s, e).clock)
  {
    if i in s.txs {
      assert IsFor(s, i, o) && ReadOk(s.txs[i], first, Bought(s, o), s.clock);
    }
  }

  lemma {:induction false} StepKeepsOneWriter(s: State, e: Event, o: OrgId)
    requires OneWriter(s, o) && Enabled(s, e)
    ensures OneWriter(Next(s, e), o)
  {
    var s' := Next(s, e);
    if e.WriteRow? {
      assert forall i :: i in s.txs && s.txs[i].phase.Wrote? && s.txs[i].payment.orgId == s.txs[e.id].payment.orgId ==> false;
    }
    assert forall i :: IsFor(s', i, o) && s'.txs[i].phase.Wrote? && !(e.WriteRow? && i == e.id) ==>
                         IsFor(s, i, o) && s.txs[i].phase.Wrote?;
  }

  lemma {:induction false} MonthsStep(s: State, e: Event, o: OrgId, first: int)
    requires Inv(s) && MonthsInv(s, o, first) && Enabled(s, e)
    requires e.Insert? && e.payment.orgId == Some(o) ==> e.payment.once
    requires e.Others? ==> PeriodEnd(SubscriptionOf(e.orgs, o)) == EndOf(s, o)
    ensures MonthsInv(Next(s, e), o, first)
  {
    if e.DoCommit? && IsFor(s, e.id, o) {
      OwnCommitKeepsMonths(s, e.id, o, first);
    } else {
      QuietStepKeepsBought(s, e, o, first);
      StepKeepsOneWriter(s, e, o);
      forall i | IsFor(Next(s, e), i, o)
        ensures ReadOk(Next(s, e).txs[i], first, Bought(s, o), Next(s, e).clock)
      {
        QuietStepKeepsReader(s, e, o, first, i);
      }
    }
  }

  lemma {:induction false} MonthsRun(s: State, events: seq<Event>, s': State, o: OrgId, first: int)
    requires Inv(s) && MonthsInv(s, o, first) && Run(s, events, s') && BuysMonths(s, events, o)
    ensures MonthsInv(s', o, first)
    decreases |events|
  {
    if events != [] {
      MonthsStep(s, events[0], o, first);
      InvStep(s, events[0]);
      MonthsRun(Next(s, events[0]), events[1..], s', o, first);
    }
  }

  /**
   In every interleaving in which a workspace buys only single months: each commit leaves the end date of
   its own month in the row, and all the months bought are served, 31 days for each reference, exactly
   when no payment was committed between another's read and its commit unless its month had run out.
   */
  lemma {:induction false} PaidTimeConservedIff(start: State, events: seq<Event>, s: State, o: OrgId)
    requires Init(start) && Run(start, events, s) && BuysMonths(start, events, o)
    ensures WellOrdered(Bought(s, o))
    ensures forall k :: 0 <= k < |Bought(s, o)| ==>
              CommitsOf(s.commits, o)[k].row.periodEnd == Some(Finish(EndOr0(EndOf(start, o)), Bought(s, o), k))
    ensures Conserved(EndOr0(EndOf(start, o)), Bought(s, o))
            <==> forall j, k :: !Missed(EndOr0(EndOf(start, o)), Bought(s, o), j, k)
    ensures ShortTransactions(Bought(s, o)) ==>
              (Conserved(EndOr0(EndOf(start, o)), Bought(s, o))
               <==> forall k :: 0 <= k < |Bought(s, o)| ==> Bought(s, o)[k].seen == k)
  {
    var first := EndOr0(EndOf(start, o));
    assert CommitsOf(start.commits, o) == [];
    MonthsRun(start, events, s, o, first);
    MonthsConservedIff(first, Bought(s, o));
    if ShortTransactions(Bought(s, o)) {
      ConservedIffSerial(first, Bought(s, o));
    }
  }

  // ---------- Two months at once ----------

  /** A payment for a single month of `o` that may be applied now. */
  ghost predicate Applies(s: State, p: Payment, o: OrgId) {
    WellFormed(p) && p.orgId == Some(o) && p.once && !Conflicts(s.ledger, p.reference.value, p.eventId)
  }

  lemma {:induction false} FirstStep(s: State, e: Event, events: seq<Event>, s': State)
    requires Enabled(s, e) && Run(Next(s, e), events, s')
    ensures Run(s, [e] + events, s')
  {
    assert ([e] + events)[1..] == events;
  }

  lemma {:induction false} TwoSteps(s: State, e1: Event, e2: Event, rest: seq<Event>, s': State)
    requires Enabled(s, e1) && Enabled(Next(s, e1), e2) && Run(Next(Next(s, e1), e2), rest, s')
    ensures Run(s, [e1, e2] + rest, s')
  {
    FirstStep(Next(s, e1), e2, rest, s');
    FirstStep(s, e1, [e2] + rest, s');
    assert [e1] + ([e2] + rest) == [e1, e2] + rest;
  }

  lemma {:induction false} BothInsert(s: State, o: OrgId, p: Payment, q: Payment) returns (s': State)
    requires s.txs == map[] && o in s.orgs && Applies(s, p, o) && Applies(s, q, o) && !Clash(p, q)
    ensures Enabled(s, Insert(0, p)) && Enabled(Next(s, Insert(0, p)), Insert(1, q))
    ensures s' == Next(Next(s, Insert(0, p)), Insert(1, q))
    ensures s' == s.(txs := map[0 := Tx(p, Marked), 1 := Tx(q, Marked)])
  {
    s' := Next(Next(s, Insert(0, p)), Insert(1, q));
  }

  lemma {:induction false} BothRead(s: State, o: OrgId, p: Payment, q: Payment) returns (s': State)
    requires o in s.orgs && Applies(s, p, o) && Applies(s, q, o)
    requires s.txs == map[0 := Tx(p, Marked), 1 := Tx(q, Marked)]
    ensures Enabled(s, ReadRow(0)) && Enabled(Next(s, ReadRow(0)), ReadRow(1))
    ensures s' == Next(Next(s, ReadRow(0)), ReadRow(1))
    ensures var read := HasRead(SubscriptionOf(s.orgs, o), |CommitsOf(s.commits, o)|);
            s' == s.(txs := map[0 := Tx(p, read), 1 := Tx(q, read)])
  {
    s' := Next(Next(s, ReadRow(0)), ReadRow(1));
    var read := HasRead(SubscriptionOf(s.orgs, o), |CommitsOf(s.commits, o)|);
    assert s'.txs == map[0 := Tx(p, read), 1 := Tx(q, read)];
  }

  /** A transaction that nobody blocks writes and commits the month it has computed. */
  lemma {:induction false} WriteAndCommit(s: State, id: nat, o: OrgId) returns (s': State)
    requires Enabled(s, WriteRow(id)) && s.txs[id].payment.orgId == Some(o) && s.txs[id].payment.once
    ensures Enabled(Next(s, WriteRow(id)), DoCommit(id))
    ensures s' == Next(Next(s, WriteRow(id)), DoCommit(id))
    ensures s'.txs == s.txs - {id} && s'.clock == s.clock && s'.orgs.Keys == s.orgs.Keys
    ensures s'.ledger.Keys == s.ledger.Keys + {s.txs[id].payment.reference.value}
    ensures EndOf(s', o) == Some(MonthStart(PeriodEnd(s.txs[id].phase.existing), s.clock) + ONE_MONTH_MS)
  {
    s' := Next(Next(s, WriteRow(id)), DoCommit(id));
  }

  lemma {:induction false} BothCommit(s: State, o: OrgId, p: Payment, q: Payment, read: Phase) returns (s': State)
    requires o in s.orgs && Applies(s, p, o) && Applies(s, q, o) && read.HasRead?
    requires s.txs == map[0 := Tx(p, read), 1 := Tx(q, read)]
    ensures Run(s, [WriteRow(0), DoCommit(0)] + ([WriteRow(1), DoCommit(1)] + []), s')
    ensures s'.ledger.Keys == s.ledger.Keys + {p.reference.value, q.reference.value}
    ensures EndOf(s', o) == Some(MonthStart(PeriodEnd(read.existing), s.clock) + ONE_MONTH_MS)
  {
    var mid := WriteAndCommit(s, 0, o);
    s' := WriteAndCommit(mid, 1, o);
    assert Run(s', [], s');
    TwoSteps(mid, WriteRow(1), DoCommit(1), [], s');
    TwoSteps(s, WriteRow(0), DoCommit(0), [WriteRow(1), DoCommit(1)] + [], s');
  }

  /**
   Whatever a workspace has paid so far, any two months for it have an interleaving, both reading before
   either commits, that leaves two markers and moves the end date by a single month.
   */
  lemma {:induction false} OverlappingMonthsCollapse(s: State, o: OrgId, p: Payment, q: Payment) returns (events: seq<Event>, s': State)
    requires s.txs == map[] && o in s.orgs && Applies(s, p, o) && Applies(s, q, o) && !Clash(p, q)
    ensures Run(s, events, s')
    ensures s'.ledger.Keys == s.ledger.Keys + {p.reference.value, q.reference.value}
    ensures EndOf(s', o) == Some(MonthStart(EndOf(s, o), s.clock) + ONE_MONTH_MS)
  {
    var s2 := BothInsert(s, o, p, q);
    var s4 := BothRead(s2, o, p, q);
    s' := BothCommit(s4, o, p, q, s4.txs[0].phase);
    var commits := [WriteRow(0), DoCommit(0)] + ([WriteRow(1), DoCommit(1)] + []);
    TwoSteps(s2, ReadRow(0), ReadRow(1), commits, s');
    events := [Insert(0, p), Insert(1, q)] + ([ReadRow(0), ReadRow(1)] + commits);
    TwoSteps(s, Insert(0, p), Insert(1, q), [ReadRow(0), ReadRow(1)] + commits, s');
  }
}
