/**
 The access cache of one replica under arbitrary interleaving: rows change at any moment, by anyone,
 and a call that misses reads its row first and writes the cache entry later.
 */
module AccessReplica {
  import opened Wrappers
  import opened Subscriptions
  import opened WorkspaceAccess

  /** The tables as they stood from `at` until the next version. */
  datatype Version = Version(at: int, orgs: Organizations)

  /** A call between its database read and its cache write. */
  datatype Pending = Pending(orgId: OrgId, row: Option<Organization>, readAt: int)

  datatype State = State(versions: seq<Version>, cache: Cache, pending: map<nat, Pending>, clock: int)

  datatype Event =
    | Wait(ms: nat)
    | Change(orgs: Organizations)
    | Forget(orgId: OrgId)
    | ForgetAll
    | Begin(call: nat, orgId: OrgId)
    | Finish(call: nat)

  ghost predicate Init(s: State) {
    && |s.versions| == 1 && s.versions[0].at <= s.clock
    && s.cache == map[] && s.pending == map[]
  }

  function Current(s: State): Organizations
    requires s.versions != []
  {
    s.versions[|s.versions| - 1].orgs
  }

  ghost predicate Enabled(s: State, e: Event) {
    match e
    case Begin(call, orgId) => call !in s.pending && !Hit(s.cache, orgId, s.clock)
    case Finish(call) => call in s.pending
    case _ => true
  }

  function Next(s: State, e: Event): State
    requires s.versions != []
  {
    match e
    case Wait(ms) => s.(clock := s.clock + ms)
    case Change(orgs) => s.(versions := s.versions + [Version(s.clock, orgs)])
    case Forget(orgId) => s.(cache := s.cache - {orgId})
    case ForgetAll => s.(cache := map[])
    case Begin(call, orgId) =>
      s.(pending := s.pending[call := Pending(orgId, Lookup(Current(s), orgId), s.clock)])
    case Finish(call) =>
      if call in s.pending then
        var p := s.pending[call];
        s.(cache := s.cache[p.orgId := CacheEntry(ExpiresAt(p.row, s.clock), Decide(p.row, s.clock))],
           pending := s.pending - {call})
      else s
  }

  ghost predicate Run(s: State, events: seq<Event>, s': State)
    requires s.versions != []
    decreases |events|
  {
    if events == [] then s' == s
    else Enabled(s, events[0]) && Run(Next(s, events[0]), events[1..], s')
  }

  /** Version `i` was the current one at `t`. */
  ghost predicate InForce(versions: seq<Version>, i: nat, t: int) {
    && i < |versions| && versions[i].at <= t
    && (i + 1 < |versions| ==> t <= versions[i + 1].at)
  }

  /** `row` is what some version in force at `t` held for the workspace. */
  ghost predicate HeldAt(versions: seq<Version>, orgId: OrgId, row: Option<Organization>, t: int) {
    exists i: nat :: InForce(versions, i, t) && Lookup(versions[i].orgs, orgId) == row
  }

  /** The entry was computed at `writtenAt` from a row read at `readAt`. */
  ghost predicate Provenance(s: State, orgId: OrgId, row: Option<Organization>, readAt: int, writtenAt: int)
    requires orgId in s.cache
  {
    && readAt <= writtenAt <= s.clock
    && HeldAt(s.versions, orgId, row, readAt)
    && s.cache[orgId] == CacheEntry(ExpiresAt(row, writtenAt), Decide(row, writtenAt))
  }

  /** `value` is the decision now on a row held at `readAt`, cached less than the TTL ago. */
  ghost predicate RecentDecision(s: State, orgId: OrgId, value: Access, row: Option<Organization>, readAt: int, writtenAt: int) {
    && readAt <= writtenAt <= s.clock < writtenAt + CACHE_TTL_MS
    && HeldAt(s.versions, orgId, row, readAt)
    && value == Decide(row, s.clock)
  }

  ghost predicate Inv(s: State) {
    && s.versions != [] && s.versions[|s.versions| - 1].at <= s.clock
    && (forall c :: c in s.pending ==>
          s.pending[c].readAt <= s.clock && HeldAt(s.versions, s.pending[c].orgId, s.pending[c].row, s.pending[c].readAt))
    && (forall o :: o in s.cache ==> exists row, readAt, writtenAt :: Provenance(s, o, row, readAt, writtenAt))
  }

  /** History is append-only: what was in force at a past moment stays in force at that moment. */
  lemma HeldAtStable(versions: seq<Version>, more: Version, orgId: OrgId, row: Option<Organization>, t: int)
    requires HeldAt(versions, orgId, row, t) && t <= more.at
    ensures HeldAt(versions + [more], orgId, row, t)
  {
    var i: nat :| InForce(versions, i, t) && Lookup(versions[i].orgs, orgId) == row;
    assert InForce(versions + [more], i, t);
  }

  lemma CurrentHeld(s: State, orgId: OrgId)
    requires s.versions != [] && s.versions[|s.versions| - 1].at <= s.clock
    ensures HeldAt(s.versions, orgId, Lookup(Current(s), orgId), s.clock)
  {
    assert InForce(s.versions, |s.versions| - 1, s.clock);
  }

  lemma InvStep(s: State, e: Event)
    requires Inv(s) && Enabled(s, e)
    ensures Inv(Next(s, e))
  {
    var s' := Next(s, e);
    if e.Begin? {
      CurrentHeld(s, e.orgId);
    }
    forall c | c in s'.pending && c in s.pending
      ensures HeldAt(s'.versions, s'.pending[c].orgId, s'.pending[c].row, s'.pending[c].readAt) || (e.Begin? && c == e.call)
    {
      if e.Change? {
        HeldAtStable(s.versions, Version(s.clock, e.orgs), s.pending[c].orgId, s.pending[c].row, s.pending[c].readAt);
      }
    }
    forall o | o in s'.cache
      ensures exists row, readAt, writtenAt :: Provenance(s', o, row, readAt, writtenAt)
    {
      if e.Finish? && o == s.pending[e.call].orgId {
        assert Provenance(s', o, s.pending[e.call].row, s.pending[e.call].readAt, s.clock);
      } else {
        var row, readAt, writtenAt :| Provenance(s, o, row, readAt, writtenAt);
        if e.Change? {
          HeldAtStable(s.versions, Version(s.clock, e.orgs), o, row, readAt);
        }
        assert Provenance(s', o, row, readAt, writtenAt);
      }
    }
  }

  lemma {:induction false} InvRun(s: State, events: seq<Event>, s': State)
    requires Inv(s) && Run(s, events, s')
    ensures Inv(s')
    decreases |events|
  {
    if events != [] {
      InvStep(s, events[0]);
      InvRun(Next(s, events[0]), events[1..], s');
    }
  }

  /**
   Whatever the interleaving, a cached answer is the decision, at the moment of asking, on a row that
   some table version in force at the time of the read held; and its entry was written less than
   30 seconds ago.
   */
  lemma CachedAnswerIsRecent(start: State, events: seq<Event>, s: State, orgId: OrgId)
    requires Init(start) && Run(start, events, s)
    requires Hit(s.cache, orgId, s.clock)
    ensures exists row, readAt, writtenAt :: RecentDecision(s, orgId, s.cache[orgId].value, row, readAt, writtenAt)
  {
    InvRun(start, events, s);
    var row, readAt, writtenAt :| Provenance(s, orgId, row, readAt, writtenAt);
    DecisionStableUntilExpiry(row, writtenAt, s.clock);
    assert RecentDecision(s, orgId, s.cache[orgId].value, row, readAt, writtenAt);
  }

  /** A call that missed answers with the decision, now, on the row it read. */
  lemma FreshAnswerIsRead(start: State, events: seq<Event>, s: State, call: nat)
    requires Init(start) && Run(start, events, s)
    requires call in s.pending
    ensures var p := s.pending[call];
            && p.readAt <= s.clock && HeldAt(s.versions, p.orgId, p.row, p.readAt)
            && Next(s, Finish(call)).cache[p.orgId].value == Decide(p.row, s.clock)
  {
    InvRun(start, events, s);
  }
}
