/**
 How stale an authorization answer can be, over any number of replicas and any interleaving of
 requests, writers and cache fills.  A call that misses reads the row and writes its cache entry up
 to `lag` milliseconds later; `lag` is 0 when one clock reading serves the whole call.
 */
module Staleness {
  import opened Wrappers
  import opened Membership

  /** The table as it stood from `at` until the next version. */
  datatype Version = Version(at: int, rows: Rows)

  datatype Pending = Pending(replica: nat, key: Key, value: Option<Row>, readAt: int)

  datatype State = State(
    log: seq<Version>,
    caches: map<nat, Cache>,
    pending: map<nat, Pending>,
    nextId: nat,
    clock: int)

  datatype Event =
    | Wait(ms: nat)
    | Begin(call: nat, replica: nat, key: Key)
    | Finish(call: nat)
    | Forget(replica: nat, key: Key)
    // The writers of membership rows.
    | Join(key: Key, role: Role)
    | Remove(key: Key)
    | SetRole(key: Key, role: Role)
    | BumpOne(key: Key)
    | BumpAll(user: string)

  function CurrentRows(s: State): Rows {
    if s.log == [] then map[] else s.log[|s.log| - 1].rows
  }

  function CacheOf(s: State, replica: nat): Cache {
    if replica in s.caches then s.caches[replica] else map[]
  }

  function Write(s: State, rows: Rows): State {
    s.(log := s.log + [Version(s.clock, rows)])
  }

  ghost predicate Init(s: State) {
    && |s.log| == 1 && s.log[0].at <= s.clock
    && s.caches == map[] && s.pending == map[]
    && (forall k :: k in CurrentRows(s) ==> CurrentRows(s)[k].id < s.nextId)
  }

  ghost predicate Enabled(s: State, e: Event, lag: nat)
  {
    match e
    case Begin(call, replica, key) => call !in s.pending && !Hit(CacheOf(s, replica), key, s.clock)
    case Finish(call) => call in s.pending && s.clock - s.pending[call].readAt <= lag
    case Join(key, _) => key !in CurrentRows(s)
    case Remove(key) => key in CurrentRows(s)
    case SetRole(key, _) => key in CurrentRows(s)
    case _ => true
  }

  function Next(s: State, e: Event): State
  {
    match e
    case Wait(ms) => s.(clock := s.clock + ms)
    case Begin(call, replica, key) =>
      s.(pending := s.pending[call := Pending(replica, key, Lookup(CurrentRows(s), key), s.clock)])
    case Finish(call) =>
      if call in s.pending then
        var p := s.pending[call];
        s.(caches := s.caches[p.replica := CacheOf(s, p.replica)[p.key := Entry(p.value, s.clock)]], pending := s.pending - {call})
      else s
    case Forget(replica, key) => s.(caches := s.caches[replica := CacheOf(s, replica) - {key}])
    case Join(key, role) => Write(s, CurrentRows(s)[key := Row(s.nextId, role, 0)]).(nextId := s.nextId + 1)
    case Remove(key) => Write(s, CurrentRows(s) - {key})
    case SetRole(key, role) =>
      if key in CurrentRows(s) then Write(s, CurrentRows(s)[key := CurrentRows(s)[key].(role := role, version := CurrentRows(s)[key].version + 1)]) else s
    case BumpOne(key) => Write(s, Bump(CurrentRows(s), key))
    case BumpAll(user) => Write(s, BumpUser(CurrentRows(s), user))
  }

  ghost predicate Run(s: State, events: seq<Event>, s': State, lag: nat)
    decreases |events|
  {
    if events == [] then s' == s
    else Enabled(s, events[0], lag) && Run(Next(s, events[0]), events[1..], s', lag)
  }

  /** Version `i` was the current one at `t`. */
  ghost predicate InForce(log: seq<Version>, i: nat, t: int) {
    && i < |log| && log[i].at <= t
    && (i + 1 < |log| ==> t <= log[i + 1].at)
  }

  ghost predicate HeldAt(log: seq<Version>, key: Key, value: Option<Row>, t: int) {
    exists i: nat :: InForce(log, i, t) && Lookup(log[i].rows, key) == value
  }

  /** The cached value was in the table at most `lag` before the entry was written. */
  ghost predicate Sourced(log: seq<Version>, key: Key, entry: Entry, lag: nat) {
    exists t :: entry.at - lag <= t <= entry.at && HeldAt(log, key, entry.value, t)
  }

  ghost predicate TimesOrdered(log: seq<Version>) {
    forall i, j :: 0 <= i <= j < |log| ==> log[i].at <= log[j].at
  }

  ghost predicate LogOk(log: seq<Version>, clock: int) {
    log != [] && TimesOrdered(log) && log[|log| - 1].at <= clock
  }

  /** Every call under way holds what the table held when it read. */
  ghost predicate PendingOk(log: seq<Version>, pending: map<nat, Pending>, clock: int) {
    forall c :: c in pending ==>
      pending[c].readAt <= clock && HeldAt(log, pending[c].key, pending[c].value, pending[c].readAt)
  }

  ghost predicate CachesOk(log: seq<Version>, caches: map<nat, Cache>, clock: int, lag: nat) {
    forall r, k :: r in caches && k in caches[r] ==>
      caches[r][k].at <= clock && Sourced(log, k, caches[r][k], lag)
  }

  ghost predicate Inv(s: State, lag: nat) {
    LogOk(s.log, s.clock) && PendingOk(s.log, s.pending, s.clock) && CachesOk(s.log, s.caches, s.clock, lag)
  }

  lemma HeldAtStable(log: seq<Version>, more: Version, key: Key, value: Option<Row>, t: int)
    requires HeldAt(log, key, value, t) && t <= more.at
    ensures HeldAt(log + [more], key, value, t)
  {
    var i: nat :| InForce(log, i, t) && Lookup(log[i].rows, key) == value;
    assert InForce(log + [more], i, t);
  }

  lemma {:induction false} WriteKeepsInv(s: State, rows: Rows, lag: nat)
    requires Inv(s, lag)
    ensures Inv(Write(s, rows), lag)
  {
    var more := Version(s.clock, rows);
    forall c | c in s.pending
      ensures HeldAt(s.log + [more], s.pending[c].key, s.pending[c].value, s.pending[c].readAt)
    {
      HeldAtStable(s.log, more, s.pending[c].key, s.pending[c].value, s.pending[c].readAt);
    }
    forall r, k | r in s.caches && k in s.caches[r]
      ensures Sourced(s.log + [more], k, s.caches[r][k], lag)
    {
      var t :| s.caches[r][k].at - lag <= t <= s.caches[r][k].at && HeldAt(s.log, k, s.caches[r][k].value, t);
      HeldAtStable(s.log, more, k, s.caches[r][k].value, t);
    }
  }

  lemma CurrentHeld(s: State, key: Key)
    requires s.log != [] && s.log[|s.log| - 1].at <= s.clock
    ensures HeldAt(s.log, key, Lookup(CurrentRows(s), key), s.clock)
  {
    assert InForce(s.log, |s.log| - 1, s.clock);
  }

  lemma FinishKeepsInv(s: State, call: nat, lag: nat)
    requires Inv(s, lag) && Enabled(s, Finish(call), lag)
    ensures Inv(Next(s, Finish(call)), lag)
  {
    var s' := Next(s, Finish(call));
    var p := s.pending[call];
    forall r, k | r in s'.caches && k in s'.caches[r]
      ensures s'.caches[r][k].at <= s'.clock && Sourced(s'.log, k, s'.caches[r][k], lag)
    {
      if r == p.replica && k == p.key {
        assert HeldAt(s'.log, k, s'.caches[r][k].value, p.readAt);
      } else {
        assert r in s.caches && k in s.caches[r] && s'.caches[r][k] == s.caches[r][k];
      }
    }
  }

  lemma {:induction false} BeginKeepsInv(s: State, call: nat, replica: nat, key: Key, lag: nat)
    requires Inv(s, lag)
    ensures Inv(Next(s, Begin(call, replica, key)), lag)
  {
    CurrentHeld(s, key);
  }

  lemma {:induction false} ForgetKeepsInv(s: State, replica: nat, key: Key, lag: nat)
    requires Inv(s, lag)
    ensures Inv(Next(s, Forget(replica, key)), lag)
  {
    var caches: map<nat, Cache> := Next(s, Forget(replica, key)).caches;
    forall r: nat, k: Key | r in caches && k in caches[r]
      ensures caches[r][k].at <= s.clock && Sourced(s.log, k, caches[r][k], lag)
    {
      assert r in s.caches && k in s.caches[r] && caches[r][k] == s.caches[r][k];
    }
  }

  /** Every writer appends one version of the table and touches nothing else that matters here. */
  lemma {:induction false} WriterKeepsInv(s: State, e: Event, lag: nat)
    requires Inv(s, lag) && Enabled(s, e, lag)
    requires e.Join? || e.Remove? || e.SetRole? || e.BumpOne? || e.BumpAll?
    ensures Inv(Next(s, e), lag)
  {
    var rows := CurrentRows(Next(s, e));
    WriteKeepsInv(s, rows, lag);
    assert Next(s, e).log == Write(s, rows).log;
  }

  lemma {:induction false} InvStep(s: State, e: Event, lag: nat)
    requires Inv(s, lag) && Enabled(s, e, lag)
    ensures Inv(Next(s, e), lag)
  {
    match e
    case Wait(_) =>
    case Begin(call, replica, key) => BeginKeepsInv(s, call, replica, key, lag);
    case Finish(call) => FinishKeepsInv(s, call, lag);
    case Forget(replica, key) => ForgetKeepsInv(s, replica, key, lag);
    case _ => WriterKeepsInv(s, e, lag);
  }

  lemma {:induction false} InvRun(s: State, events: seq<Event>, s': State, lag: nat)
    requires Inv(s, lag) && Run(s, events, s', lag)
    ensures Inv(s', lag)
    decreases |events|
  {
    if events != [] {
      InvStep(s, events[0], lag);
      InvRun(Next(s, events[0]), events[1..], s', lag);
    }
  }

  /** What a request on this replica is told now, with no further delay: from the cache, or from the table. */
  function AnswerNow(s: State, replica: nat, key: Key): Option<Row>
  {
    Answer(CacheOf(s, replica), CurrentRows(s), key, s.clock)
  }

  lemma AnswerIsRecent(s: State, lag: nat, replica: nat, key: Key) returns (t: int)
    requires Inv(s, lag)
    ensures s.clock - CACHE_TTL_MS - lag < t <= s.clock
    ensures HeldAt(s.log, key, AnswerNow(s, replica, key), t)
  {
    if Hit(CacheOf(s, replica), key, s.clock) {
      var entry := s.caches[replica][key];
      t :| entry.at - lag <= t <= entry.at && HeldAt(s.log, key, entry.value, t);
    } else {
      CurrentHeld(s, key);
      t := s.clock;
    }
  }

  /**
   An admitted request was backed, less than 5 seconds (and the call's own lag) ago, by a membership
   row holding its exact session version and a sufficient role.
   */
  lemma AdmissionIsBacked(start: State, events: seq<Event>, s: State, lag: nat, replica: nat, claims: Claims, required: Role)
      returns (t: int, row: Row)
    requires Init(start) && Run(start, events, s, lag)
    requires Judge(AnswerNow(s, replica, Key(claims.user, claims.org)), claims.version, required).AllowedAs?
    ensures s.clock - 5_000 - lag < t <= s.clock
    ensures HeldAt(s.log, Key(claims.user, claims.org), Some(row), t)
    ensures row.version == claims.version && RoleAtLeast(row.role, required)
  {
    InvRun(start, events, s, lag);
    t := AnswerIsRecent(s, lag, replica, Key(claims.user, claims.org));
    row := AnswerNow(s, replica, Key(claims.user, claims.org)).value;
  }

  /** The same for a request that had to read the table: its row was there when it read, at most `lag` ago. */
  lemma AdmissionAfterReadIsBacked(start: State, events: seq<Event>, s: State, lag: nat, call: nat, version: nat, required: Role)
    requires Init(start) && Run(start, events, s, lag)
    requires call in s.pending && Enabled(s, Finish(call), lag)
    requires Judge(s.pending[call].value, version, required).AllowedAs?
    ensures var p := s.pending[call];
            && s.clock - lag <= p.readAt <= s.clock
            && HeldAt(s.log, p.key, p.value, p.readAt)
            && p.value.Some? && p.value.value.version == version && RoleAtLeast(p.value.value.role, required)
  {
    InvRun(start, events, s, lag);
  }

  // ---------- Versions only grow during a row's life ----------

  /** From version `b` of the table on, the row is there and its session version is at least `v`. */
  ghost predicate AtLeastFrom(log: seq<Version>, b: nat, key: Key, v: nat) {
    b < |log| && forall j :: b <= j < |log| ==> key in log[j].rows && log[j].rows[key].version >= v
  }

  lemma {:induction false} VersionGrows(s: State, events: seq<Event>, s': State, lag: nat, b: nat, key: Key, v: nat)
    requires Run(s, events, s', lag)
    requires AtLeastFrom(s.log, b, key, v)
    requires forall e :: e in events ==> e != Remove(key)
    ensures s.log <= s'.log
    ensures AtLeastFrom(s'.log, b, key, v)
    decreases |events|
  {
    if events != [] {
      var mid := Next(s, events[0]);
      assert events[0] in events;
      assert s.log <= mid.log;
      assert key in CurrentRows(s) && CurrentRows(s)[key].version >= v;
      assert key in CurrentRows(mid) && CurrentRows(mid)[key].version >= v;
      forall e | e in events[1..]
        ensures e != Remove(key)
      {
        assert e in events;
      }
      VersionGrows(mid, events[1..], s', lag, b, key, v);
    }
  }

  /**
   Once a row's session version has been bumped, and as long as that row lives, every token carrying
   an older version is refused on every replica from 5 seconds (and the lag) later.
   */
  lemma OldTokensRefused(start: State, before: seq<Event>, s: State, key: Key, bump: Event, events: seq<Event>, later: State,
                         lag: nat, replica: nat, version: nat, required: Role)
    requires Init(start) && Run(start, before, s, lag)
    requires key in CurrentRows(s) && version <= CurrentRows(s)[key].version
    requires bump == BumpOne(key) || bump == BumpAll(key.user) || (bump.SetRole? && bump.key == key)
    requires Run(Next(s, bump), events, later, lag)
    requires forall e :: e in events ==> e != Remove(key)
    requires later.clock >= s.clock + 5_000 + lag
    ensures Judge(AnswerNow(later, replica, key), version, required).Unauthorized?
  {
    InvRun(start, before, s, lag);
    InvStep(s, bump, lag);
    var mid := Next(s, bump);
    InvRun(mid, events, later, lag);
    VersionGrows(mid, events, later, lag, |s.log|, key, version + 1);
    var t := AnswerIsRecent(later, lag, replica, key);
    var i: nat :| InForce(later.log, i, t) && Lookup(later.log[i].rows, key) == AnswerNow(later, replica, key);
    assert later.log[|s.log|] == mid.log[|s.log|];
    assert i >= |s.log|;
  }

  // ---------- The limit of that promise: one life of a row ----------

  /** This event bumps the session version of `key`. */
  predicate Bumps(e: Event, key: Key) {
    e == BumpOne(key) || e == BumpAll(key.user) || (e.SetRole? && e.key == key)
  }

  /** This event writes the row of `key`. */
  predicate Writes(e: Event, key: Key) {
    Bumps(e, key) || e == Remove(key) || (e.Join? && e.key == key)
  }

  function BumpCount(events: seq<Event>, key: Key): nat {
    if events == [] then 0 else (if Bumps(events[0], key) then 1 else 0) + BumpCount(events[1..], key)
  }

  /** From version `b` of the table on, this is what it holds for the key. */
  ghost predicate HoldsFrom(log: seq<Version>, b: nat, key: Key, value: Option<Row>) {
    b < |log| && forall j :: b <= j < |log| ==> Lookup(log[j].rows, key) == value
  }

  lemma {:induction false} OthersLeaveRow(s: State, e: Event, key: Key)
    requires s.log != [] && !Writes(e, key)
    ensures s.log <= Next(s, e).log && |Next(s, e).log| <= |s.log| + 1
    ensures Lookup(CurrentRows(Next(s, e)), key) == Lookup(CurrentRows(s), key)
  {
  }

  lemma {:induction false} HoldsOn(s: State, e: Event, b: nat, key: Key, value: Option<Row>)
    requires HoldsFrom(s.log, b, key, value) && !Writes(e, key)
    ensures HoldsFrom(Next(s, e).log, b, key, value) && s.log <= Next(s, e).log
  {
    OthersLeaveRow(s, e, key);
  }

  lemma {:induction false} HoldsThrough(s: State, events: seq<Event>, s': State, lag: nat, b: nat, key: Key, value: Option<Row>)
    requires Run(s, events, s', lag) && HoldsFrom(s.log, b, key, value)
    requires forall i :: 0 <= i < |events| ==> !Writes(events[i], key)
    ensures s.log <= s'.log && HoldsFrom(s'.log, b, key, value)
    decreases |events|
  {
    if events != [] {
      HoldsOn(s, events[0], b, key, value);
      HoldsThrough(Next(s, events[0]), events[1..], s', lag, b, key, value);
    }
  }

  lemma {:induction false} HeldAfter(log: seq<Version>, b: nat, key: Key, value: Option<Row>, answer: Option<Row>, t: int)
    requires TimesOrdered(log) && HoldsFrom(log, b, key, value)
    requires HeldAt(log, key, answer, t) && log[b].at < t
    ensures answer == value
  {
    var i: nat :| InForce(log, i, t) && Lookup(log[i].rows, key) == answer;
    if i < b {
      NextByThen(log, i, b);
    }
  }

  lemma {:induction false} NextByThen(log: seq<Version>, i: nat, b: nat)
    requires TimesOrdered(log) && i < b < |log|
    ensures log[i + 1].at <= log[b].at
  {
  }

  /** Once a row has been left alone for 5 seconds (and the lag), every replica judges by that very row. */
  lemma {:induction false} SettledAnswerIsExact(start: State, before: seq<Event>, s: State, events: seq<Event>, later: State,
                                                lag: nat, replica: nat, key: Key)
    requires Init(start) && Run(start, before, s, lag) && Run(s, events, later, lag)
    requires forall i :: 0 <= i < |events| ==> !Writes(events[i], key)
    requires later.clock >= s.clock + 5_000 + lag
    ensures AnswerNow(later, replica, key) == Lookup(CurrentRows(s), key)
  {
    InvRun(start, before, s, lag);
    InvRun(s, events, later, lag);
    var b, value := |s.log| - 1, Lookup(CurrentRows(s), key);
    HoldsThrough(s, events, later, lag, b, key, value);
    var t := AnswerIsRecent(later, lag, replica, key);
    HeldAfter(later.log, b, key, value, AnswerNow(later, replica, key), t);
  }

  lemma {:induction false} VersionCountsStep(s: State, e: Event, key: Key, lag: nat)
    requires s.log != [] && key in CurrentRows(s) && Enabled(s, e, lag) && e != Remove(key)
    ensures Next(s, e).log != [] && key in CurrentRows(Next(s, e))
    ensures CurrentRows(Next(s, e))[key].version == CurrentRows(s)[key].version + (if Bumps(e, key) then 1 else 0)
  {
  }

  /** While a row lives, its version counts its bumps. */
  lemma {:induction false} VersionCountsBumps(s: State, events: seq<Event>, s': State, lag: nat, key: Key)
    requires s.log != [] && key in CurrentRows(s) && Run(s, events, s', lag)
    requires forall i :: 0 <= i < |events| ==> events[i] != Remove(key)
    ensures s'.log != [] && key in CurrentRows(s')
    ensures CurrentRows(s')[key].version == CurrentRows(s)[key].version + BumpCount(events, key)
    decreases |events|
  {
    if events != [] {
      VersionCountsStep(s, events[0], key, lag);
      VersionCountsBumps(Next(s, events[0]), events[1..], s', lag, key);
    }
  }

  lemma {:induction false} RunConcat(s: State, first: seq<Event>, mid: State, second: seq<Event>, s': State, lag: nat)
    requires Run(s, first, mid, lag) && Run(mid, second, s', lag)
    ensures Run(s, first + second, s', lag)
    decreases |first|
  {
    if first == [] {
      assert first + second == second;
    } else {
      assert (first + second)[1..] == first[1..] + second;
      RunConcat(Next(s, first[0]), first[1..], mid, second, s', lag);
    }
  }

  lemma {:induction false} RejoinRun(s: State, key: Key, role: Role, life: seq<Event>, mid: State, lag: nat)
    requires s.log != [] && key in CurrentRows(s)
    requires Run(Next(Next(s, Remove(key)), Join(key, role)), life, mid, lag)
    ensures Run(s, [Remove(key), Join(key, role)] + life, mid, lag)
    ensures CurrentRows(Next(Next(s, Remove(key)), Join(key, role))) == (CurrentRows(s) - {key})[key := Row(s.nextId, role, 0)]
  {
    var removed := Next(s, Remove(key));
    assert CurrentRows(removed) == CurrentRows(s) - {key};
    var tail := [Join(key, role)] + life;
    assert tail[1..] == life;
    assert Run(removed, tail, mid, lag);
    assert ([Remove(key), Join(key, role)] + life)[1..] == tail;
  }

  /**
   A person who is removed and joins again starts from version 0.  A token kept from the earlier life is
   admitted again, on every replica once the row has been left alone for 5 seconds (and the lag), exactly
   when its version is the number of bumps since the rejoin and the row's role suffices.
   */
  lemma {:induction false} OldLifeTokenAdmittedIff(start: State, before: seq<Event>, s: State, key: Key, role: Role,
                                                   life: seq<Event>, mid: State, quiet: seq<Event>, later: State,
                                                   lag: nat, replica: nat, version: nat, required: Role)
    requires Init(start) && Run(start, before, s, lag) && key in CurrentRows(s)
    requires Run(Next(Next(s, Remove(key)), Join(key, role)), life, mid, lag) && Run(mid, quiet, later, lag)
    requires forall i :: 0 <= i < |life| ==> life[i] != Remove(key)
    requires forall i :: 0 <= i < |quiet| ==> !Writes(quiet[i], key)
    requires later.clock >= mid.clock + 5_000 + lag
    ensures key in CurrentRows(mid)
    ensures Judge(AnswerNow(later, replica, key), version, required).AllowedAs?
            <==> version == BumpCount(life, key) && RoleAtLeast(CurrentRows(mid)[key].role, required)
  {
    InvRun(start, before, s, lag);
    RejoinRun(s, key, role, life, mid, lag);
    RunConcat(start, before, s, [Remove(key), Join(key, role)] + life, mid, lag);
    VersionCountsBumps(Next(Next(s, Remove(key)), Join(key, role)), life, mid, lag, key);
    SettledAnswerIsExact(start, before + ([Remove(key), Join(key, role)] + life), mid, quiet, later, lag, replica, key);
  }
}
