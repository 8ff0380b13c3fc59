/**
 Recovery codes under interleaving: claims and replacements of whole sets, statement by statement,
 under read-committed isolation.
 */
module BackupCodeRaces {
  import opened Wrappers
  import opened BackupCodes

  /** A request between its read, which matched a row, and its conditional update. */
  datatype Request = Request(user: User, candidate: string, matched: RowId)

  /**
   A transaction that replaces a user's codes: a delete, then an insert.  Dropping every code is a
   replacement by none.  Under read committed the delete works on the rows that were committed when
   it began, `snapshot`, and waits for other transactions holding any of them.
   */
  datatype Replacement = Replacement(user: User, issued: map<RowId, string>, snapshot: set<RowId>, begun: nat, deleted: bool, inserted: bool)

  /** A committed replacement, with the positions in the run of its delete's beginning and its commit. */
  datatype Done = Done(user: User, issued: map<RowId, string>, begun: nat, committed: nat)

  type History = map<nat, Done>

  /**
   `issuer` is the transaction that drew each row id; `successes` are the rows claimed so far, in
   order; `now` counts the steps of the run.
   */
  datatype State = State(
    rows: Rows,
    replacing: map<nat, Replacement>,
    requests: map<nat, Request>,
    issuer: map<RowId, nat>,
    successes: seq<RowId>,
    history: History,
    now: nat)

  datatype Event =
    | BeginDelete(tx: nat, user: User, issued: map<RowId, string>)
    | FinishDelete(tx: nat)
    | InsertRows(tx: nat)
    | DoCommit(tx: nat)
    | Abort(tx: nat)
    | ReadAndMatch(request: nat, user: User, candidate: string, matched: RowId)
    | TryClaim(request: nat)

  ghost predicate Init(s: State) {
    s.rows == map[] && s.replacing == map[] && s.requests == map[] && s.successes == [] && s.history == map[]
  }

  /** An open transaction holds the rows its delete has marked. */
  ghost predicate LockedBy(s: State, tx: nat, id: RowId) {
    tx in s.replacing && s.replacing[tx].deleted && id in s.replacing[tx].snapshot && id in s.rows
  }

  ghost predicate Locked(s: State, id: RowId) {
    exists tx :: LockedBy(s, tx, id)
  }

  ghost predicate Enabled(s: State, e: Event) {
    match e
    case BeginDelete(tx, _, issued) =>
      tx !in s.replacing && tx !in s.history && (issued == map[] || |issued| == CODE_COUNT) && issued.Keys !! s.issuer.Keys
    case FinishDelete(tx) =>
      && tx in s.replacing && !s.replacing[tx].deleted
      && forall id :: id in s.replacing[tx].snapshot ==> !Locked(s, id)
    case InsertRows(tx) => tx in s.replacing && s.replacing[tx].deleted
    case DoCommit(tx) => tx in s.replacing && s.replacing[tx].deleted && s.replacing[tx].inserted
    case Abort(tx) => tx in s.replacing
    case ReadAndMatch(r, user, candidate, matched) =>
      r !in s.requests && matched in Unused(s.rows, user) && Matches(s.rows, matched, candidate)
    case TryClaim(r) => r in s.requests && !Locked(s, s.requests[r].matched)
  }

  function Begun(s: State, tx: nat, user: User, issued: map<RowId, string>): State {
    s.(replacing := s.replacing[tx := Replacement(user, issued, Owned(s.rows, user), s.now, false, false)],
       issuer := s.issuer + map id | id in issued :: tx)
  }

  function Committed(s: State, tx: nat): State
    requires tx in s.replacing
  {
    var x := s.replacing[tx];
    s.(rows := (s.rows - x.snapshot) + NewRows(x.user, x.issued),
       replacing := s.replacing - {tx},
       history := s.history[tx := Done(x.user, x.issued, x.begun, s.now)])
  }

  function Claimed(s: State, r: nat): State
    requires r in s.requests
  {
    var id := s.requests[r].matched;
    if id in s.rows && !s.rows[id].used
    then s.(rows := Claim(s.rows, id), requests := s.requests - {r}, successes := s.successes + [id])
    else s.(requests := s.requests - {r})
  }

  /** The effect of a step, but for the step counter. */
  function Effect(s: State, e: Event): State {
    match e
    case BeginDelete(tx, user, issued) => Begun(s, tx, user, issued)
    case FinishDelete(tx) =>
      if tx in s.replacing then s.(replacing := s.replacing[tx := s.replacing[tx].(deleted := true)]) else s
    case InsertRows(tx) =>
      if tx in s.replacing then s.(replacing := s.replacing[tx := s.replacing[tx].(inserted := true)]) else s
    case DoCommit(tx) => if tx in s.replacing then Committed(s, tx) else s
    case Abort(tx) => s.(replacing := s.replacing - {tx})
    case ReadAndMatch(r, user, candidate, matched) => s.(requests := s.requests[r := Request(user, candidate, matched)])
    case TryClaim(r) => if r in s.requests then Claimed(s, r) else s
  }

  function Next(s: State, e: Event): State {
    Effect(s, e).(now := s.now + 1)
  }

  ghost predicate Run(s: State, events: seq<Event>, s': State)
    decreases |events|
  {
    if events == [] then s' == s
    else Enabled(s, events[0]) && Run(Next(s, events[0]), events[1..], s')
  }

  // ---------- What every step keeps ----------

  /** Some later replacement of the same user began its delete after `tx` was committed. */
  ghost predicate Superseded(history: History, tx: nat)
    requires tx in history
  {
    exists j :: j in history && history[j].user == history[tx].user && history[tx].committed < history[j].begun
  }

  type Issuers = map<RowId, nat>

  /** `id` belongs to a committed replacement. */
  predicate Known(issuer: Issuers, history: History, id: RowId) {
    id in issuer && issuer[id] in history && id in history[issuer[id]].issued
  }

  ghost predicate RequestsInv(requests: map<nat, Request>, issuer: Issuers, history: History) {
    forall r :: r in requests ==> Known(issuer, history, requests[r].matched)
  }

  ghost predicate SuccessesKnown(successes: seq<RowId>, issuer: Issuers, history: History) {
    forall i :: 0 <= i < |successes| ==> Known(issuer, history, successes[i])
  }

  /** What has been claimed is spent for good, and nothing else is. */
  ghost predicate SuccessesSpent(rows: Rows, successes: seq<RowId>) {
    && (forall i :: 0 <= i < |successes| && successes[i] in rows ==> rows[successes[i]].used)
    && (forall id :: id in rows && rows[id].used ==> Lists(successes, id))
  }

  ghost predicate Distinct(ids: seq<RowId>) {
    forall i, j :: 0 <= i < j < |ids| ==> ids[i] != ids[j]
  }

  ghost predicate DrawnBy(issued: map<RowId, string>, issuer: Issuers, tx: nat) {
    forall id :: id in issued ==> id in issuer && issuer[id] == tx
  }

  ghost predicate IssuersInv(replacing: map<nat, Replacement>, issuer: Issuers, history: History) {
    && (forall tx :: tx in replacing ==> tx !in history)
    && (forall tx :: tx in replacing ==> DrawnBy(replacing[tx].issued, issuer, tx))
    && (forall tx :: tx in history ==> DrawnBy(history[tx].issued, issuer, tx))
  }

  predicate IsSet(issued: map<RowId, string>) {
    issued == map[] || |issued| == CODE_COUNT
  }

  ghost predicate TimesInv(replacing: map<nat, Replacement>, history: History, now: nat) {
    && (forall tx :: tx in replacing ==> replacing[tx].begun < now && IsSet(replacing[tx].issued))
    && (forall tx :: tx in history ==> history[tx].begun < history[tx].committed < now && IsSet(history[tx].issued))
  }

  ghost predicate IsCurrent(issuer: Issuers, history: History, id: RowId, user: User) {
    Known(issuer, history, id) && history[issuer[id]].user == user && !Superseded(history, issuer[id])
  }

  /** The rows in the table are those of the replacements that no later one superseded. */
  ghost predicate RowsInv(rows: Rows, issuer: Issuers, history: History) {
    && (forall id :: id in rows ==> IsCurrent(issuer, history, id, rows[id].user))
    && (forall tx, id :: tx in history && !Superseded(history, tx) && id in history[tx].issued ==> id in rows)
  }

  /** `id` was committed for this user before the delete of `x` began. */
  predicate Precedes(issuer: Issuers, history: History, id: RowId, x: Replacement) {
    Known(issuer, history, id) && history[issuer[id]].user == x.user && history[issuer[id]].committed < x.begun
  }

  /** An open delete works on the rows of its user that were committed before it began. */
  ghost predicate SnapshotOk(x: Replacement, rows: Rows, issuer: Issuers, history: History) {
    && (forall id :: id in x.snapshot ==> Precedes(issuer, history, id, x))
    && (forall id :: id in rows && Precedes(issuer, history, id, x) ==> id in x.snapshot)
  }

  ghost predicate SnapshotInv(replacing: map<nat, Replacement>, rows: Rows, issuer: Issuers, history: History) {
    forall tx :: tx in replacing ==> SnapshotOk(replacing[tx], rows, issuer, history)
  }

  ghost predicate Inv(s: State) {
    && RequestsInv(s.requests, s.issuer, s.history)
    && SuccessesKnown(s.successes, s.issuer, s.history)
    && SuccessesSpent(s.rows, s.successes)
    && Distinct(s.successes)
    && IssuersInv(s.replacing, s.issuer, s.history)
    && TimesInv(s.replacing, s.history, s.now)
    && RowsInv(s.rows, s.issuer, s.history)
    && SnapshotInv(s.replacing, s.rows, s.issuer, s.history)
  }

  // Beginning a replacement draws ids that belong to no committed one.

  lemma {:induction false} KnownAfterBegin(issuer: Issuers, history: History, tx: nat, issued: map<RowId, string>, id: RowId)
    requires tx !in history && issued.Keys !! issuer.Keys
    ensures var issuer' := issuer + map i | i in issued :: tx;
            && (Known(issuer', history, id) <==> Known(issuer, history, id))
            && (id in issuer ==> id in issuer' && issuer'[id] == issuer[id])
  {
  }

  lemma {:induction false} BeginKeepsRows(rows: Rows, issuer: Issuers, history: History, tx: nat, issued: map<RowId, string>)
    requires tx !in history && issued.Keys !! issuer.Keys && RowsInv(rows, issuer, history)
    ensures RowsInv(rows, issuer + map i | i in issued :: tx, history)
  {
    forall id | id in rows
      ensures IsCurrent(issuer + map i | i in issued :: tx, history, id, rows[id].user)
    {
      KnownAfterBegin(issuer, history, tx, issued, id);
      assert IsCurrent(issuer, history, id, rows[id].user);
    }
  }

  lemma {:induction false} BeginKeepsSnapshot(x: Replacement, rows: Rows, issuer: Issuers, history: History, tx: nat, issued: map<RowId, string>)
    requires tx !in history && issued.Keys !! issuer.Keys && SnapshotOk(x, rows, issuer, history)
    ensures SnapshotOk(x, rows, issuer + map i | i in issued :: tx, history)
  {
    forall id
      ensures Precedes(issuer + map i | i in issued :: tx, history, id, x) <==> Precedes(issuer, history, id, x)
    {
      KnownAfterBegin(issuer, history, tx, issued, id);
    }
  }

  lemma {:induction false} NewSnapshotOk(s: State, user: User, issued: map<RowId, string>)
    requires Inv(s)
    ensures SnapshotOk(Replacement(user, issued, Owned(s.rows, user), s.now, false, false), s.rows, s.issuer, s.history)
  {
    var x := Replacement(user, issued, Owned(s.rows, user), s.now, false, false);
    forall id | id in x.snapshot
      ensures Precedes(s.issuer, s.history, id, x)
    {
      assert IsCurrent(s.issuer, s.history, id, s.rows[id].user);
    }
    forall id | id in s.rows && Precedes(s.issuer, s.history, id, x)
      ensures id in x.snapshot
    {
      assert IsCurrent(s.issuer, s.history, id, s.rows[id].user);
    }
  }

  lemma {:induction false} BeginKeepsLists(s: State, tx: nat, user: User, issued: map<RowId, string>)
    requires Inv(s) && Enabled(s, BeginDelete(tx, user, issued))
    ensures var s' := Next(s, BeginDelete(tx, user, issued));
            RequestsInv(s'.requests, s'.issuer, s'.history) && SuccessesKnown(s'.successes, s'.issuer, s'.history)
  {
    forall r | r in s.requests
      ensures Known(s.issuer + map i | i in issued :: tx, s.history, s.requests[r].matched)
    {
      KnownAfterBegin(s.issuer, s.history, tx, issued, s.requests[r].matched);
    }
    forall n | 0 <= n < |s.successes|
      ensures Known(s.issuer + map i | i in issued :: tx, s.history, s.successes[n])
    {
      KnownAfterBegin(s.issuer, s.history, tx, issued, s.successes[n]);
    }
  }

  lemma {:induction false} DrawnAfterBegin(drawn: map<RowId, string>, issuer: Issuers, drawer: nat, tx: nat, issued: map<RowId, string>)
    requires DrawnBy(drawn, issuer, drawer) && issued.Keys !! issuer.Keys
    ensures DrawnBy(drawn, issuer + map i | i in issued :: tx, drawer)
  {
  }

  lemma {:induction false} BeginKeepsIssuers(s: State, tx: nat, user: User, issued: map<RowId, string>)
    requires Inv(s) && Enabled(s, BeginDelete(tx, user, issued))
    ensures var s' := Next(s, BeginDelete(tx, user, issued)); IssuersInv(s'.replacing, s'.issuer, s'.history)
  {
    var s' := Next(s, BeginDelete(tx, user, issued));
    forall y | y in s'.replacing
      ensures DrawnBy(s'.replacing[y].issued, s'.issuer, y)
    {
      if y != tx {
        DrawnAfterBegin(s.replacing[y].issued, s.issuer, y, tx, issued);
      }
    }
    forall y | y in s.history
      ensures DrawnBy(s.history[y].issued, s'.issuer, y)
    {
      DrawnAfterBegin(s.history[y].issued, s.issuer, y, tx, issued);
    }
  }

  lemma {:induction false} BeginKeepsInv(s: State, tx: nat, user: User, issued: map<RowId, string>)
    requires Inv(s) && Enabled(s, BeginDelete(tx, user, issued))
    ensures Inv(Next(s, BeginDelete(tx, user, issued)))
  {
    var s' := Next(s, BeginDelete(tx, user, issued));
    BeginKeepsLists(s, tx, user, issued);
    BeginKeepsIssuers(s, tx, user, issued);
    BeginKeepsRows(s.rows, s.issuer, s.history, tx, issued);
    NewSnapshotOk(s, user, issued);
    forall y | y in s'.replacing
      ensures SnapshotOk(s'.replacing[y], s'.rows, s'.issuer, s'.history)
    {
      BeginKeepsSnapshot(s'.replacing[y], s.rows, s.issuer, s.history, tx, issued);
    }
  }

  // A commit supersedes what was there when its delete began, and adds its own rows.

  lemma {:induction false} CommitSupersedes(s: State, tx: nat, k: nat)
    requires Inv(s) && tx in s.replacing && k in s.history
    ensures k in Committed(s, tx).history
    ensures Superseded(Committed(s, tx).history, k) <==>
              Superseded(s.history, k) ||
              (s.history[k].user == s.replacing[tx].user && s.history[k].committed < s.replacing[tx].begun)
  {
    var h := Committed(s, tx).history;
    if j :| j in s.history && s.history[j].user == s.history[k].user && s.history[k].committed < s.history[j].begun {
      assert j in h && h[j] == s.history[j];
    }
    if s.history[k].user == s.replacing[tx].user && s.history[k].committed < s.replacing[tx].begun {
      assert tx in h && h[tx].begun == s.replacing[tx].begun;
    }
  }

  lemma {:induction false} LatestIsCurrent(s: State, tx: nat)
    requires Inv(s) && tx in s.replacing
    ensures !Superseded(Committed(s, tx).history, tx)
  {
  }

  lemma {:induction false} KnownAfterCommit(s: State, tx: nat, id: RowId)
    requires Inv(s) && tx in s.replacing && Known(s.issuer, s.history, id)
    ensures var h := Committed(s, tx).history;
            Known(s.issuer, h, id) && s.issuer[id] != tx && h[s.issuer[id]] == s.history[s.issuer[id]]
  {
  }

  lemma {:induction false} CommittedRowIsCurrent(s: State, tx: nat, id: RowId)
    requires Inv(s) && tx in s.replacing && id in Committed(s, tx).rows
    ensures IsCurrent(s.issuer, Committed(s, tx).history, id, Committed(s, tx).rows[id].user)
  {
    var x := s.replacing[tx];
    if id in x.issued {
      LatestIsCurrent(s, tx);
    } else {
      assert IsCurrent(s.issuer, s.history, id, s.rows[id].user);
      assert SnapshotOk(x, s.rows, s.issuer, s.history);
      KnownAfterCommit(s, tx, id);
      CommitSupersedes(s, tx, s.issuer[id]);
    }
  }

  lemma {:induction false} CommitKeepsRows(s: State, tx: nat)
    requires Inv(s) && tx in s.replacing
    ensures RowsInv(Committed(s, tx).rows, s.issuer, Committed(s, tx).history)
  {
    var s' := Committed(s, tx);
    forall id | id in s'.rows
      ensures IsCurrent(s.issuer, s'.history, id, s'.rows[id].user)
    {
      CommittedRowIsCurrent(s, tx, id);
    }
    forall k, id | k in s'.history && !Superseded(s'.history, k) && id in s'.history[k].issued
      ensures id in s'.rows
    {
      if k != tx {
        CommitSupersedes(s, tx, k);
        assert SnapshotOk(s.replacing[tx], s.rows, s.issuer, s.history);
      }
    }
  }

  lemma {:induction false} CommitKeepsSnapshot(s: State, tx: nat, y: nat)
    requires Inv(s) && tx in s.replacing && y in s.replacing && y != tx
    ensures SnapshotOk(s.replacing[y], Committed(s, tx).rows, s.issuer, Committed(s, tx).history)
  {
    var s' := Committed(s, tx);
    var x := s.replacing[y];
    assert SnapshotOk(x, s.rows, s.issuer, s.history);
    forall id | id in x.snapshot
      ensures Precedes(s.issuer, s'.history, id, x)
    {
      KnownAfterCommit(s, tx, id);
    }
    forall id | id in s'.rows && Precedes(s.issuer, s'.history, id, x)
      ensures id in x.snapshot
    {
      assert s.issuer[id] != tx;
      assert id in s.rows;
      assert IsCurrent(s.issuer, s.history, id, s.rows[id].user);
    }
  }

  lemma {:induction false} CommitKeepsLists(s: State, tx: nat)
    requires Inv(s) && tx in s.replacing
    ensures RequestsInv(s.requests, s.issuer, Committed(s, tx).history)
    ensures SuccessesKnown(s.successes, s.issuer, Committed(s, tx).history)
    ensures SuccessesSpent(Committed(s, tx).rows, s.successes)
  {
    var s' := Committed(s, tx);
    forall r | r in s.requests
      ensures Known(s.issuer, s'.history, s.requests[r].matched)
    {
      KnownAfterCommit(s, tx, s.requests[r].matched);
    }
    forall i | 0 <= i < |s.successes|
      ensures Known(s.issuer, s'.history, s.successes[i])
      ensures s.successes[i] !in s.replacing[tx].issued
    {
      KnownAfterCommit(s, tx, s.successes[i]);
    }
  }

  lemma {:induction false} CommitKeepsIssuers(s: State, tx: nat)
    requires Inv(s) && tx in s.replacing
    ensures IssuersInv(s.replacing - {tx}, s.issuer, Committed(s, tx).history)
  {
  }

  lemma {:induction false} CommitKeepsTimes(s: State, tx: nat)
    requires Inv(s) && tx in s.replacing
    ensures TimesInv(s.replacing - {tx}, Committed(s, tx).history, s.now + 1)
  {
  }

  lemma {:induction false} CommitKeepsInv(s: State, tx: nat)
    requires Inv(s) && Enabled(s, DoCommit(tx))
    ensures Inv(Next(s, DoCommit(tx)))
  {
    CommitKeepsLists(s, tx);
    CommitKeepsIssuers(s, tx);
    CommitKeepsTimes(s, tx);
    CommitKeepsRows(s, tx);
    forall y | y in s.replacing - {tx}
      ensures SnapshotOk(s.replacing[y], Committed(s, tx).rows, s.issuer, Committed(s, tx).history)
    {
      CommitKeepsSnapshot(s, tx, y);
    }
  }

  // A claim marks one row that was not marked.

  lemma {:induction false} ClaimKeepsSpent(rows: Rows, successes: seq<RowId>, id: RowId)
    requires SuccessesSpent(rows, successes) && Distinct(successes) && id in rows && !rows[id].used
    ensures SuccessesSpent(Claim(rows, id), successes + [id]) && Distinct(successes + [id])
  {
    forall x | x in Claim(rows, id) && Claim(rows, id)[x].used
      ensures Lists(successes + [id], x)
    {
      if x == id {
        assert (successes + [id])[|successes|] == id;
      } else {
        var i :| 0 <= i < |successes| && successes[i] == x;
        assert (successes + [id])[i] == x;
      }
    }
  }

  lemma {:induction false} ClaimKeepsRows(s: State, id: RowId)
    requires Inv(s) && id in s.rows && !s.rows[id].used
    ensures RowsInv(Claim(s.rows, id), s.issuer, s.history)
    ensures SnapshotInv(s.replacing, Claim(s.rows, id), s.issuer, s.history)
  {
    assert Claim(s.rows, id).Keys == s.rows.Keys;
    forall tx | tx in s.replacing
      ensures SnapshotOk(s.replacing[tx], Claim(s.rows, id), s.issuer, s.history)
    {
      assert SnapshotOk(s.replacing[tx], s.rows, s.issuer, s.history);
    }
  }

  lemma {:induction false} ClaimKeepsLists(s: State, r: nat)
    requires Inv(s) && r in s.requests
    ensures RequestsInv(s.requests - {r}, s.issuer, s.history)
    ensures SuccessesKnown(s.successes + [s.requests[r].matched], s.issuer, s.history)
    ensures TimesInv(s.replacing, s.history, s.now + 1)
  {
    assert Known(s.issuer, s.history, s.requests[r].matched);
  }

  lemma {:induction false} WonClaimKeepsInv(s: State, r: nat, id: RowId)
    requires Inv(s) && r in s.requests && id == s.requests[r].matched && id in s.rows && !s.rows[id].used
    ensures Inv(s.(rows := Claim(s.rows, id), requests := s.requests - {r}, successes := s.successes + [id], now := s.now + 1))
  {
    ClaimKeepsSpent(s.rows, s.successes, id);
    ClaimKeepsRows(s, id);
    ClaimKeepsLists(s, r);
  }

  lemma {:induction false} LostClaimKeepsInv(s: State, r: nat)
    requires Inv(s)
    ensures Inv(s.(requests := s.requests - {r}, now := s.now + 1))
  {
    assert TimesInv(s.replacing, s.history, s.now + 1);
  }

  lemma {:induction false} ClaimKeepsInv(s: State, r: nat)
    requires Inv(s) && Enabled(s, TryClaim(r))
    ensures Inv(Next(s, TryClaim(r)))
  {
    var id := s.requests[r].matched;
    if id in s.rows && !s.rows[id].used {
      WonClaimKeepsInv(s, r, id);
    } else {
      LostClaimKeepsInv(s, r);
    }
  }

  /** Open transactions may only have gained marks, or ended. */
  ghost predicate OnlyMarked(before: map<nat, Replacement>, after: map<nat, Replacement>) {
    forall tx :: tx in after ==>
                   && tx in before && after[tx].user == before[tx].user && after[tx].issued == before[tx].issued
                   && after[tx].snapshot == before[tx].snapshot && after[tx].begun == before[tx].begun
  }

  lemma {:induction false} MarkKeepsSnapshot(x: Replacement, y: Replacement, rows: Rows, issuer: Issuers, history: History)
    requires SnapshotOk(x, rows, issuer, history)
    requires y.user == x.user && y.snapshot == x.snapshot && y.begun == x.begun
    ensures SnapshotOk(y, rows, issuer, history)
  {
    assert forall id :: Precedes(issuer, history, id, y) <==> Precedes(issuer, history, id, x);
  }

  lemma {:induction false} MarkedKeepsSnapshots(before: map<nat, Replacement>, after: map<nat, Replacement>,
                                                rows: Rows, issuer: Issuers, history: History)
    requires SnapshotInv(before, rows, issuer, history) && OnlyMarked(before, after)
    ensures SnapshotInv(after, rows, issuer, history)
  {
    forall tx | tx in after
      ensures SnapshotOk(after[tx], rows, issuer, history)
    {
      MarkKeepsSnapshot(before[tx], after[tx], rows, issuer, history);
    }
  }

  lemma {:induction false} MarkedKeepsInv(s: State, after: map<nat, Replacement>)
    requires Inv(s) && OnlyMarked(s.replacing, after)
    ensures Inv(s.(replacing := after, now := s.now + 1))
  {
    assert TimesInv(after, s.history, s.now + 1);
    assert IssuersInv(after, s.issuer, s.history);
    MarkedKeepsSnapshots(s.replacing, after, s.rows, s.issuer, s.history);
  }

  lemma {:induction false} MarksOnly(s: State, e: Event)
    requires e.FinishDelete? || e.InsertRows? || e.Abort?
    ensures OnlyMarked(s.replacing, Next(s, e).replacing)
    ensures Next(s, e) == s.(replacing := Next(s, e).replacing, now := s.now + 1)
  {
  }

  /** A mark on an open transaction, or its end. */
  lemma {:induction false} MarkKeepsInv(s: State, e: Event)
    requires Inv(s) && Enabled(s, e)
    requires e.FinishDelete? || e.InsertRows? || e.Abort?
    ensures Inv(Next(s, e))
  {
    MarksOnly(s, e);
    MarkedKeepsInv(s, Next(s, e).replacing);
  }

  lemma {:induction false} ReadKeepsInv(s: State, r: nat, user: User, candidate: string, matched: RowId)
    requires Inv(s) && Enabled(s, ReadAndMatch(r, user, candidate, matched))
    ensures Inv(Next(s, ReadAndMatch(r, user, candidate, matched)))
  {
    assert IsCurrent(s.issuer, s.history, matched, s.rows[matched].user);
    assert TimesInv(s.replacing, s.history, s.now + 1);
  }

  lemma {:induction false} InvStep(s: State, e: Event)
    requires Inv(s) && Enabled(s, e)
    ensures Inv(Next(s, e))
  {
    match e
    case BeginDelete(tx, user, issued) => BeginKeepsInv(s, tx, user, issued);
    case DoCommit(tx) => CommitKeepsInv(s, tx);
    case TryClaim(r) => ClaimKeepsInv(s, r);
    case ReadAndMatch(r, user, candidate, matched) => ReadKeepsInv(s, r, user, candidate, matched);
    case _ => MarkKeepsInv(s, e);
  }

  lemma {:induction false} InvRun(s: State, events: seq<Event>, s': State)
    requires Inv(s) && Run(s, events, s')
    ensures Inv(s')
    decreases |events|
  {
    if events != [] {
      InvStep(s, events[0]);
      InvRun(Next(s, events[0]), events[1..], s');
    }
  }

  // ---------- The guarantees ----------

  /** In every interleaving of readers, claimers and reissues, each code succeeds at most once. */
  lemma {:induction false} EachCodeOnce(start: State, events: seq<Event>, s: State)
    requires Init(start) && Run(start, events, s)
    ensures Distinct(s.successes)
    ensures forall i :: 0 <= i < |s.successes| && s.successes[i] in s.rows ==> s.rows[s.successes[i]].used
  {
    InvRun(start, events, s);
  }

  predicate IsReissue(history: History, tx: nat, user: User)
    requires tx in history
  {
    history[tx].user == user && history[tx].issued != map[]
  }

  /** The reissues of a user that no later replacement superseded. */
  ghost function Current(history: History, user: User): set<nat> {
    set tx | tx in history && IsReissue(history, tx, user) && !Superseded(history, tx)
  }

  /** The user's codes in the table that have been redeemed. */
  function Spent(s: State, user: User): set<RowId> {
    set i | 0 <= i < |s.successes| && s.successes[i] in Owned(s.rows, user) :: s.successes[i]
  }

  lemma {:induction false} SpentOrUnused(s: State, user: User)
    requires SuccessesSpent(s.rows, s.successes)
    ensures |Spent(s, user)| + |Unused(s.rows, user)| == |Owned(s.rows, user)|
  {
    var spent, unused := Spent(s, user), Unused(s.rows, user);
    forall id | id in Owned(s.rows, user)
      ensures id in spent || id in unused
    {
      if s.rows[id].used {
        assert Lists(s.successes, id);
      }
    }
    assert Owned(s.rows, user) == spent + unused && spent !! unused;
  }

  /** Rows issued by any of these transactions. */
  ghost predicate FromSome(history: History, txs: set<nat>, id: RowId) {
    exists tx :: tx in txs && tx in history && id in history[tx].issued
  }

  lemma {:induction false} CountIssued(s: State, txs: set<nat>, ids: set<RowId>)
    requires Inv(s)
    requires forall tx :: tx in txs ==> tx in s.history && s.history[tx].issued != map[]
    requires forall id :: id in ids <==> FromSome(s.history, txs, id)
    ensures |ids| == CODE_COUNT * |txs|
    decreases |txs|
  {
    if txs == {} {
      assert ids == {};
    } else {
      var tx :| tx in txs;
      var own := s.history[tx].issued.Keys;
      assert forall id :: id in own ==> FromSome(s.history, txs, id);
      assert IsSet(s.history[tx].issued);
      forall id
        ensures id in ids - own <==> FromSome(s.history, txs - {tx}, id)
      {
        if FromSome(s.history, txs - {tx}, id) {
          var y :| y in txs - {tx} && y in s.history && id in s.history[y].issued;
          assert DrawnBy(s.history[y].issued, s.issuer, y) && DrawnBy(s.history[tx].issued, s.issuer, tx);
          assert FromSome(s.history, txs, id);
        }
      }
      CountIssued(s, txs - {tx}, ids - own);
      assert ids == (ids - own) + own;
    }
  }

  lemma {:induction false} OwnedIsCurrent(s: State, user: User, id: RowId)
    requires Inv(s)
    ensures id in Owned(s.rows, user) <==> FromSome(s.history, Current(s.history, user), id)
  {
    if id in Owned(s.rows, user) {
      assert IsCurrent(s.issuer, s.history, id, user);
      assert s.issuer[id] in Current(s.history, user);
    }
    if FromSome(s.history, Current(s.history, user), id) {
      var tx :| tx in Current(s.history, user) && tx in s.history && id in s.history[tx].issued;
      assert id in s.rows && IsCurrent(s.issuer, s.history, id, s.rows[id].user);
      assert DrawnBy(s.history[tx].issued, s.issuer, tx);
    }
  }

  /** In every interleaving: redeemed and unused codes make ten for each reissue that was not superseded. */
  lemma {:induction false} CodesConserved(start: State, events: seq<Event>, s: State, user: User)
    requires Init(start) && Run(start, events, s)
    ensures |Spent(s, user)| + |Unused(s.rows, user)| == 10 * |Current(s.history, user)|
  {
    InvRun(start, events, s);
    SpentOrUnused(s, user);
    forall id
      ensures id in Owned(s.rows, user) <==> FromSome(s.history, Current(s.history, user), id)
    {
      OwnedIsCurrent(s, user, id);
    }
    CountIssued(s, Current(s.history, user), Owned(s.rows, user));
  }

  /** The user's replacement that was committed last. */
  ghost predicate IsLast(history: History, tx: nat) {
    && tx in history
    && forall x :: x in history && history[x].user == history[tx].user ==> history[x].committed <= history[tx].committed
  }

  /** Every other reissue of that user was committed before some later replacement began its delete. */
  ghost predicate OthersSuperseded(history: History, last: nat)
    requires last in history
  {
    forall x :: x in history && IsReissue(history, x, history[last].user) && x != last ==> Superseded(history, x)
  }

  /**
   After a reissue there are ten codes, redeemed or not, exactly when every other reissue of that user
   was committed before some later replacement began its delete.
   */
  lemma {:induction false} TenCodesIff(start: State, events: seq<Event>, s: State, last: nat)
    requires Init(start) && Run(start, events, s)
    requires IsLast(s.history, last) && s.history[last].issued != map[]
    ensures var user := s.history[last].user;
            |Spent(s, user)| + |Unused(s.rows, user)| == 10 <==> OthersSuperseded(s.history, last)
  {
    InvRun(start, events, s);
    CodesConserved(start, events, s, s.history[last].user);
    OneCurrentIff(s, last);
  }

  lemma {:induction false} OneCurrentIff(s: State, last: nat)
    requires Inv(s) && IsLast(s.history, last) && s.history[last].issued != map[]
    ensures |Current(s.history, s.history[last].user)| == 1 <==> OthersSuperseded(s.history, last)
  {
    var current := Current(s.history, s.history[last].user);
    assert last in current;
    if OthersSuperseded(s.history, last) {
      assert current == {last};
    } else {
      var x :| x in s.history && IsReissue(s.history, x, s.history[last].user) && x != last && !Superseded(s.history, x);
      assert x in current;
      SmallerSet({last, x}, current);
    }
  }

  lemma {:induction false} SmallerSet(a: set<nat>, b: set<nat>)
    requires a <= b
    ensures |a| <= |b|
  {
    assert b == a + (b - a);
  }

  /** In particular when no other reissue of that user is committed between a reissue's delete and its commit. */
  lemma {:induction false} SerialReissueLeavesTen(start: State, events: seq<Event>, s: State, last: nat)
    requires Init(start) && Run(start, events, s)
    requires IsLast(s.history, last) && s.history[last].issued != map[]
    requires forall x :: x in s.history && IsReissue(s.history, x, s.history[last].user) && x != last ==>
                           s.history[x].committed < s.history[last].begun
    ensures |Spent(s, s.history[last].user)| + |Unused(s.rows, s.history[last].user)| == 10
  {
    TenCodesIff(start, events, s, last);
  }

  // ---------- Two reissues at once ----------

  lemma {:induction false} FirstStep(s: State, e: Event, events: seq<Event>, s': State)
    requires Enabled(s, e) && Run(Next(s, e), events, s')
    ensures Run(s, [e] + events, s')
  {
    assert ([e] + events)[1..] == events;
  }

  lemma {:induction false} RunConcat(s: State, first: seq<Event>, mid: State, second: seq<Event>, s': State)
    requires Run(s, first, mid) && Run(mid, second, s')
    ensures Run(s, first + second, s')
    decreases |first|
  {
    if first == [] {
      assert first + second == second;
    } else {
      assert (first + second)[1..] == first[1..] + second;
      RunConcat(Next(s, first[0]), first[1..], mid, second, s');
    }
  }

  lemma {:induction false} ThreeSteps(s: State, e1: Event, e2: Event, e3: Event)
    requires Enabled(s, e1) && Enabled(Next(s, e1), e2) && Enabled(Next(Next(s, e1), e2), e3)
    ensures Run(s, [e1, e2, e3], Next(Next(Next(s, e1), e2), e3))
  {
    var s3 := Next(Next(Next(s, e1), e2), e3);
    assert Run(s3, [], s3);
    FirstStep(Next(Next(s, e1), e2), e3, [], s3);
    FirstStep(Next(s, e1), e2, [e3], s3);
    FirstStep(s, e1, [e2, e3], s3);
    assert [e3] + [] == [e3] && [e2] + [e3] == [e2, e3] && [e1] + [e2, e3] == [e1, e2, e3];
  }

  /** A replacement whose rows nobody else holds runs to its commit. */
  lemma {:induction false} ReplacementCompletes(s: State, tx: nat) returns (s': State)
    requires tx in s.replacing && !s.replacing[tx].deleted
    requires forall id :: id in s.replacing[tx].snapshot ==> !Locked(s, id)
    ensures Run(s, [FinishDelete(tx), InsertRows(tx), DoCommit(tx)], s')
    ensures s'.rows == (s.rows - s.replacing[tx].snapshot) + NewRows(s.replacing[tx].user, s.replacing[tx].issued)
    ensures s'.replacing == s.replacing - {tx}
  {
    var s1 := Next(s, FinishDelete(tx));
    var s2 := Next(s1, InsertRows(tx));
    s' := Next(s2, DoCommit(tx));
    ThreeSteps(s, FinishDelete(tx), InsertRows(tx), DoCommit(tx));
  }

  lemma {:induction false} TwoSteps(s: State, e1: Event, e2: Event)
    requires Enabled(s, e1) && Enabled(Next(s, e1), e2)
    ensures Run(s, [e1, e2], Next(Next(s, e1), e2))
  {
    var s2 := Next(Next(s, e1), e2);
    assert Run(s2, [], s2);
    FirstStep(Next(s, e1), e2, [], s2);
    FirstStep(s, e1, [e2], s2);
    assert [e2] + [] == [e2] && [e1] + [e2] == [e1, e2];
  }

  lemma {:induction false} BothBegin(s: State, user: User, a: nat, b: nat, forA: map<RowId, string>, forB: map<RowId, string>) returns (s': State)
    requires s.replacing == map[]
    requires a != b && a !in s.history && b !in s.history
    requires |forA| == |forB| == CODE_COUNT && forA.Keys !! forB.Keys !! s.issuer.Keys
    ensures Run(s, [BeginDelete(a, user, forA), BeginDelete(b, user, forB)], s')
    ensures s'.rows == s.rows
    ensures s'.replacing.Keys == {a, b}
    ensures s'.replacing[a] == Replacement(user, forA, Owned(s.rows, user), s.now, false, false)
    ensures s'.replacing[b] == Replacement(user, forB, Owned(s.rows, user), s.now + 1, false, false)
  {
    var s1 := Next(s, BeginDelete(a, user, forA));
    SecondMayBegin(s, user, a, b, forA, forB);
    s' := Next(s1, BeginDelete(b, user, forB));
    assert s'.rows == s.rows && s'.replacing.Keys == {a, b};
    TwoSteps(s, BeginDelete(a, user, forA), BeginDelete(b, user, forB));
  }

  lemma {:induction false} SecondMayBegin(s: State, user: User, a: nat, b: nat, forA: map<RowId, string>, forB: map<RowId, string>)
    requires a != b && b !in s.history && b !in s.replacing
    requires |forB| == CODE_COUNT && forA.Keys !! forB.Keys && forB.Keys !! s.issuer.Keys
    ensures Enabled(Next(s, BeginDelete(a, user, forA)), BeginDelete(b, user, forB))
  {
    assert Next(s, BeginDelete(a, user, forA)).issuer.Keys == s.issuer.Keys + forA.Keys;
  }

  lemma {:induction false} BothSetsUnused(rows: Rows, user: User, forA: map<RowId, string>, forB: map<RowId, string>)
    requires |forA| == |forB| == CODE_COUNT && forA.Keys !! forB.Keys !! rows.Keys
    ensures var owned := Owned(rows, user);
            |Unused((((rows - owned) + NewRows(user, forA)) - owned) + NewRows(user, forB), user)| == 20
  {
    var owned := Owned(rows, user);
    assert Unused((((rows - owned) + NewRows(user, forA)) - owned) + NewRows(user, forB), user) == forA.Keys + forB.Keys;
  }

  lemma {:induction false} BothComplete(s: State, a: nat, b: nat) returns (s': State)
    requires a != b && s.replacing.Keys == {a, b}
    requires !s.replacing[a].deleted && !s.replacing[b].deleted
    ensures Run(s, [FinishDelete(a), InsertRows(a), DoCommit(a)] + [FinishDelete(b), InsertRows(b), DoCommit(b)], s')
    ensures var x, y := s.replacing[a], s.replacing[b];
            s'.rows == (((s.rows - x.snapshot) + NewRows(x.user, x.issued)) - y.snapshot) + NewRows(y.user, y.issued)
  {
    var first := ReplacementCompletes(s, a);
    assert first.replacing.Keys == {b} && first.replacing[b] == s.replacing[b];
    s' := ReplacementCompletes(first, b);
    RunConcat(s, [FinishDelete(a), InsertRows(a), DoCommit(a)], first, [FinishDelete(b), InsertRows(b), DoCommit(b)], s');
  }

  /**
   Whatever the table holds, two reissues for one user that both begin before either commits can leave
   twenty unused codes: the second delete waits for the first, and then does not see its rows.
   */
  lemma {:induction false} OverlappingReissuesDouble(s: State, user: User, a: nat, b: nat, forA: map<RowId, string>, forB: map<RowId, string>)
      returns (events: seq<Event>, s': State)
    requires s.rows.Keys <= s.issuer.Keys && s.replacing == map[]
    requires a != b && a !in s.history && b !in s.history
    requires |forA| == |forB| == CODE_COUNT && forA.Keys !! forB.Keys !! s.issuer.Keys
    ensures Run(s, events, s')
    ensures |Unused(s'.rows, user)| == 20
  {
    var begun := BothBegin(s, user, a, b, forA, forB);
    s' := BothComplete(begun, a, b);
    var beginning := [BeginDelete(a, user, forA), BeginDelete(b, user, forB)];
    var rest := [FinishDelete(a), InsertRows(a), DoCommit(a)] + [FinishDelete(b), InsertRows(b), DoCommit(b)];
    events := beginning + rest;
    RunConcat(s, beginning, begun, rest, s');
    BothSetsUnused(s.rows, user, forA, forB);
  }
}
