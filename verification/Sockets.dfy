/**
 Live sockets: authenticated once at the handshake, then re-checked by a timer on every replica, and
 never kept past the lifetime of an access token.
 */
module Sockets {
  import opened Wrappers
  import opened Membership
  import opened Staleness

  const REVALIDATE_MS: int := 60_000
  const MAX_SOCKET_LIFETIME_MS: int := 15 * 60_000

  datatype Socket = Socket(key: Key, version: nat, connectedAt: int)

  predicate Matches(live: Option<Row>, version: nat) {
    live.Some? && live.value.version == version
  }

  /** What one pass of the timer decides about one socket. */
  predicate Survives(socket: Socket, live: Option<Row>, now: int) {
    now - socket.connectedAt <= MAX_SOCKET_LIFETIME_MS && Matches(live, socket.version)
  }

  // ---------- The gateway of one replica ----------

  class RealtimeGateway {
    const memberships: MembershipService
    /** Open sockets whose handshake went through, and those it has not reached yet. */
    var sockets: map<nat, Socket>
    var waiting: set<nat>

    constructor (memberships: MembershipService)
      ensures this.memberships == memberships && sockets == map[] && waiting == {}
    {
      this.memberships := memberships;
      sockets, waiting := map[], {};
    }

    /** `claims` is None when the handshake carries no access token that verifies. */
    method HandleConnection(id: nat, claims: Option<Claims>, now: int) returns (open: bool)
      requires id !in sockets
      modifies this`sockets, this`waiting, memberships`cache
      ensures waiting == old(waiting) - {id}
      ensures open <==> claims.Some? &&
                        Matches(Answer(old(memberships.cache), memberships.tables.rows, Key(claims.value.user, claims.value.org), now),
                                claims.value.version)
      ensures sockets == if open
                         then old(sockets)[id := Socket(Key(claims.value.user, claims.value.org), claims.value.version, now)]
                         else old(sockets)
    {
      waiting := waiting - {id};
      if claims.None? {
        return false;
      }
      var key := Key(claims.value.user, claims.value.org);
      var live := memberships.Current(key, now);
      if live.None? || live.value.version != claims.value.version {
        return false;
      }
      sockets := sockets[id := Socket(key, claims.value.version, now)];
      return true;
    }

    /** Drop every socket this person holds in this workspace on this replica. */
    method DropLocally(key: Key)
      modifies this`sockets
      ensures forall id :: id in sockets ==> id in old(sockets) && sockets[id] == old(sockets)[id] && sockets[id].key != key
      ensures forall id :: id in old(sockets) && id !in sockets ==> old(sockets)[id].key == key
    {
      sockets := map id | id in sockets && sockets[id].key != key :: sockets[id];
    }

    /** Re-check every socket; `listed` is the order in which they are fetched. */
    method RevalidateSockets(listed: seq<nat>, now: int)
      requires forall id :: id in listed <==> id in sockets || id in waiting
      requires sockets.Keys !! waiting
      requires forall i, j :: 0 <= i < j < |listed| ==> listed[i] != listed[j]
      modifies this`sockets, this`waiting, memberships`cache
      ensures waiting == {}
      ensures sockets == map id | id in old(sockets) && Survives(old(sockets)[id],
                                    Answer(old(memberships.cache), memberships.tables.rows, old(sockets)[id].key, now), now)
                                :: old(sockets)[id]
      ensures forall key :: Answer(memberships.cache, memberships.tables.rows, key, now) ==
                            Answer(old(memberships.cache), memberships.tables.rows, key, now)
    {
      ghost var rows := memberships.tables.rows;
      for n := 0 to |listed|
        invariant forall key :: Answer(memberships.cache, rows, key, now) == Answer(old(memberships.cache), rows, key, now)
        invariant forall id :: id in sockets ==> id in old(sockets) && sockets[id] == old(sockets)[id]
        invariant forall id :: id in waiting ==> id in old(waiting)
        invariant forall i :: n <= i < |listed| ==> (listed[i] in sockets <==> listed[i] in old(sockets))
        invariant forall i :: 0 <= i < n ==> listed[i] !in waiting
        invariant forall i :: 0 <= i < n ==>
                                (listed[i] in sockets
                                 <==> listed[i] in old(sockets) && Survives(old(sockets)[listed[i]], Answer(old(memberships.cache), rows, old(sockets)[listed[i]].key, now), now))
      {
        var id := listed[n];
        if id !in sockets {
          waiting := waiting - {id};
          continue;
        }
        var socket := sockets[id];
        if now - socket.connectedAt > MAX_SOCKET_LIFETIME_MS {
          sockets := sockets - {id};
          continue;
        }
        AskingIsStableForAll(memberships.cache, rows, socket.key, now);
        var live := memberships.Current(socket.key, now);
        if live.None? || live.value.version != socket.version {
          sockets := sockets - {id};
        }
      }
    }
  }

  lemma AskingIsStableForAll(cache: Cache, rows: Rows, asked: Key, now: int)
    ensures forall key :: Answer(CacheAfter(cache, rows, asked, now), rows, key, now) == Answer(cache, rows, key, now)
  {
    forall key {
      AskingIsStable(cache, rows, asked, key, now);
    }
  }

  // ---------- Every replica together ----------

  /** An open socket somewhere, with the moment of its last successful check. */
  datatype Open = Open(socket: Socket, replica: nat, checkedAt: int)

  /**
   `lastPass` is when each running replica last finished a pass, or started.  A check that has to fill
   the cache is a check plus a Begin and a Finish of the base machine at the same moment.
   */
  datatype World = World(base: State, sockets: map<nat, Open>, lastPass: map<nat, int>)

  datatype Step =
    | Base(e: Event)
    | Connect(id: nat, replica: nat, claims: Claims)
    | Disconnect(id: nat)
    | Pass(replica: nat)

  ghost predicate InitWorld(w: World) {
    && Init(w.base) && w.sockets == map[]
    && (forall r :: r in w.lastPass ==> w.lastPass[r] == w.base.clock)
  }

  /** Timers fire: no replica goes longer than the interval between two passes. */
  ghost predicate TimersFire(w: World, ms: nat) {
    forall r :: r in w.lastPass ==> w.base.clock + ms <= w.lastPass[r] + REVALIDATE_MS
  }

  ghost predicate EnabledStep(w: World, step: Step, lag: nat)
  {
    match step
    case Base(e) => Enabled(w.base, e, lag) && (e.Wait? ==> TimersFire(w, e.ms))
    case Connect(id, r, claims) =>
      && id !in w.sockets && r in w.lastPass
      && Matches(AnswerNow(w.base, r, Key(claims.user, claims.org)), claims.version)
    case Disconnect(_) => true
    case Pass(r) => r in w.lastPass
  }

  function NextWorld(w: World, step: Step): World {
    match step
    case Base(e) => w.(base := Next(w.base, e))
    case Connect(id, r, claims) =>
      w.(sockets := w.sockets[id := Open(Socket(Key(claims.user, claims.org), claims.version, w.base.clock), r, w.base.clock)])
    case Disconnect(id) => w.(sockets := w.sockets - {id})
    case Pass(r) =>
      w.(sockets := map id | id in w.sockets && Kept(w, id, r) ::
                      if w.sockets[id].replica == r then w.sockets[id].(checkedAt := w.base.clock) else w.sockets[id],
         lastPass := w.lastPass[r := w.base.clock])
  }

  predicate Kept(w: World, id: nat, r: nat)
    requires id in w.sockets
  {
    w.sockets[id].replica == r ==>
      Survives(w.sockets[id].socket, AnswerNow(w.base, r, w.sockets[id].socket.key), w.base.clock)
  }

  ghost predicate RunWorld(w: World, steps: seq<Step>, w': World, lag: nat)
    decreases |steps|
  {
    if steps == [] then w' == w
    else EnabledStep(w, steps[0], lag) && RunWorld(NextWorld(w, steps[0]), steps[1..], w', lag)
  }

  /** The socket's version was in the membership row shortly before its last check. */
  ghost predicate Backed(log: seq<Version>, open: Open, lag: nat) {
    exists t, row :: BackedBy(log, open, lag, t, row)
  }

  ghost predicate BackedBy(log: seq<Version>, open: Open, lag: nat, t: int, row: Row) {
    && open.checkedAt - CACHE_TTL_MS - lag < t <= open.checkedAt
    && HeldAt(log, open.socket.key, Some(row), t) && row.version == open.socket.version
  }

  ghost predicate InvWorld(w: World, lag: nat) {
    && Inv(w.base, lag)
    && (forall r :: r in w.lastPass ==> w.lastPass[r] <= w.base.clock <= w.lastPass[r] + REVALIDATE_MS)
    && (forall id :: id in w.sockets ==>
          var o := w.sockets[id];
          && o.replica in w.lastPass
          && w.lastPass[o.replica] <= o.checkedAt <= w.base.clock
          && w.lastPass[o.replica] - o.socket.connectedAt <= MAX_SOCKET_LIFETIME_MS
          && Backed(w.base.log, o, lag))
  }

  lemma BackedStable(s: State, e: Event, open: Open, lag: nat)
    requires Inv(s, lag) && Enabled(s, e, lag)
    requires open.checkedAt <= s.clock && Backed(s.log, open, lag)
    ensures Backed(Next(s, e).log, open, lag)
  {
    var t, row :| BackedBy(s.log, open, lag, t, row);
    var s' := Next(s, e);
    if s'.log != s.log {
      assert s'.log == s.log + [s'.log[|s.log|]];
      HeldAtStable(s.log, s'.log[|s.log|], open.socket.key, Some(row), t);
    }
    assert BackedBy(s'.log, open, lag, t, row);
  }

  /** A check that passes now is backed now. */
  lemma CheckBacks(s: State, open: Open, lag: nat)
    requires Inv(s, lag) && open.checkedAt == s.clock
    requires Matches(AnswerNow(s, open.replica, open.socket.key), open.socket.version)
    ensures Backed(s.log, open, lag)
  {
    var t := AnswerIsRecent(s, lag, open.replica, open.socket.key);
    assert BackedBy(s.log, open, lag, t, AnswerNow(s, open.replica, open.socket.key).value);
  }

  lemma NextBacked(w: World, step: Step, lag: nat, id: nat)
    requires InvWorld(w, lag) && EnabledStep(w, step, lag) && id in NextWorld(w, step).sockets
    ensures Backed(NextWorld(w, step).base.log, NextWorld(w, step).sockets[id], lag)
  {
    var w' := NextWorld(w, step);
    match step
    case Base(e) => BackedStable(w.base, e, w.sockets[id], lag);
    case Connect(i, r, claims) =>
      if id == i {
        CheckBacks(w.base, w'.sockets[id], lag);
      }
    case Disconnect(_) =>
    case Pass(r) =>
      if w.sockets[id].replica == r {
        CheckBacks(w.base, w'.sockets[id], lag);
      }
  }

  lemma InvWorldStep(w: World, step: Step, lag: nat)
    requires InvWorld(w, lag) && EnabledStep(w, step, lag)
    ensures InvWorld(NextWorld(w, step), lag)
  {
    if step.Base? {
      InvStep(w.base, step.e, lag);
    }
    forall id | id in NextWorld(w, step).sockets
      ensures Backed(NextWorld(w, step).base.log, NextWorld(w, step).sockets[id], lag)
    {
      NextBacked(w, step, lag, id);
    }
  }

  lemma {:induction false} InvWorldRun(w: World, steps: seq<Step>, w': World, lag: nat)
    requires InvWorld(w, lag) && RunWorld(w, steps, w', lag)
    ensures InvWorld(w', lag)
    decreases |steps|
  {
    if steps != [] {
      InvWorldStep(w, steps[0], lag);
      InvWorldRun(NextWorld(w, steps[0]), steps[1..], w', lag);
    }
  }

  /**
   Whatever happens to memberships, replicas and connections, an open socket is at most 16 minutes old,
   and its session version was in the membership row less than 65 seconds (and the lag) ago.
   */
  lemma OpenSocketIsBacked(start: World, steps: seq<Step>, w: World, lag: nat, id: nat) returns (t: int, row: Row)
    requires InitWorld(start) && RunWorld(start, steps, w, lag)
    requires id in w.sockets
    ensures w.base.clock - w.sockets[id].socket.connectedAt <= 16 * 60_000
    ensures w.base.clock - 65_000 - lag < t <= w.base.clock
    ensures HeldAt(w.base.log, w.sockets[id].socket.key, Some(row), t)
    ensures row.version == w.sockets[id].socket.version
  {
    InvWorldRun(start, steps, w, lag);
    t, row :| BackedBy(w.base.log, w.sockets[id], lag, t, row);
  }
}
