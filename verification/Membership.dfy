/**
 Authorization by the membership row: a cache of a few seconds in front of it on every replica, a guard
 that consults it on each request, and the session versions that retire old tokens.
 */
module Membership {
  import opened Wrappers

  datatype Role = VIEWER | EDITOR | ADMIN | OWNER

  function Rank(role: Role): nat {
    match role
    case OWNER => 4
    case ADMIN => 3
    case EDITOR => 2
    case VIEWER => 1
  }

  predicate RoleAtLeast(role: Role, required: Role) {
    Rank(role) >= Rank(required)
  }

  datatype Key = Key(user: string, org: string)

  /** One membership row.  `id` identifies its life: a member removed and invited again gets a new row. */
  datatype Row = Row(id: nat, role: Role, version: nat)

  type Rows = map<Key, Row>

  const CACHE_TTL_MS: int := 5_000

  datatype Entry = Entry(value: Option<Row>, at: int)

  type Cache = map<Key, Entry>

  predicate Hit(cache: Cache, key: Key, now: int) {
    key in cache && now - cache[key].at < CACHE_TTL_MS
  }

  function Answer(cache: Cache, rows: Rows, key: Key, now: int): Option<Row> {
    if Hit(cache, key, now) then cache[key].value else Lookup(rows, key)
  }

  function CacheAfter(cache: Cache, rows: Rows, key: Key, now: int): Cache {
    if Hit(cache, key, now) then cache else cache[key := Entry(Lookup(rows, key), now)]
  }

  /** Asking about one key at some moment does not change the answer about any key at that moment. */
  lemma AskingIsStable(cache: Cache, rows: Rows, asked: Key, key: Key, now: int)
    ensures Answer(CacheAfter(cache, rows, asked, now), rows, key, now) == Answer(cache, rows, key, now)
  {
  }

  function Bump(rows: Rows, key: Key): Rows {
    if key in rows then rows[key := rows[key].(version := rows[key].version + 1)] else rows
  }

  function BumpUser(rows: Rows, user: string): Rows {
    map k | k in rows :: if k.user == user then rows[k].(version := rows[k].version + 1) else rows[k]
  }

  function WorkspacesOf(rows: Rows, user: string): set<string> {
    set k | k in rows && k.user == user :: k.org
  }

  /** What a read of the user's memberships bounded to 100 may return, in whatever order. */
  predicate IsRead(rows: Rows, user: string, orgs: seq<string>) {
    && (forall i :: 0 <= i < |orgs| ==> orgs[i] in WorkspacesOf(rows, user))
    && (forall i, j :: 0 <= i < j < |orgs| ==> orgs[i] != orgs[j])
    && |orgs| == if |WorkspacesOf(rows, user)| <= 100 then |WorkspacesOf(rows, user)| else 100
  }

  // ---------- The guard ----------

  /** What a verified access token says; one minted without a session version reads as version 0. */
  datatype Claims = Claims(user: string, org: string, version: nat, role: Option<Role>)

  /** A route is public, or needs a role, or (by mistake) declares neither. */
  datatype Route = Public | NeedsRole(role: Role) | Unannotated

  datatype Verdict = Allowed | AllowedAs(role: Role) | Unauthorized | Forbidden

  /** The live row decides, never the token's own copy of the role. */
  function Judge(live: Option<Row>, version: nat, required: Role): Verdict {
    if live.None? then Unauthorized
    else if live.value.version != version then Unauthorized
    else if !RoleAtLeast(live.value.role, required) then Forbidden
    else AllowedAs(live.value.role)
  }

  class Tables {
    var rows: Rows

    constructor ()
      ensures rows == map[]
    {
      rows := map[];
    }
  }

  class MembershipService {
    const tables: Tables
    var cache: Cache

    constructor (tables: Tables)
      ensures this.tables == tables && cache == map[]
    {
      this.tables := tables;
      cache := map[];
    }

    method Current(key: Key, now: int) returns (value: Option<Row>)
      modifies this`cache
      ensures value == Answer(old(cache), tables.rows, key, now)
      ensures cache == CacheAfter(old(cache), tables.rows, key, now)
    {
      if key in cache && now - cache[key].at < CACHE_TTL_MS {
        return cache[key].value;
      }
      value := Lookup(tables.rows, key);
      cache := cache[key := Entry(value, now)];
    }

    method Invalidate(key: Key)
      modifies this`cache
      ensures cache == old(cache) - {key}
    {
      cache := cache - {key};
    }

    /** `fails` is a database error: nothing is bumped, the entry is dropped all the same. */
    method BumpSessionVersion(key: Key, fails: bool) returns (ok: bool)
      modifies this`cache, tables`rows
      ensures ok == !fails
      ensures tables.rows == if fails then old(tables.rows) else Bump(old(tables.rows), key)
      ensures cache == old(cache) - {key}
    {
      if !fails && key in tables.rows {
        tables.rows := tables.rows[key := tables.rows[key].(version := tables.rows[key].version + 1)];
      }
      Invalidate(key);
      ok := !fails;
    }

    /** `orgs` are the memberships the bounded read returned; the UPDATE itself is not bounded. */
    method BumpAllSessions(user: string, orgs: seq<string>)
      requires IsRead(tables.rows, user, orgs)
      modifies this`cache, tables`rows
      ensures tables.rows == BumpUser(old(tables.rows), user)
      ensures cache == old(cache) - (set i | 0 <= i < |orgs| :: Key(user, orgs[i]))
    {
      tables.rows := BumpUser(tables.rows, user);
      for n := 0 to |orgs|
        invariant cache == old(cache) - (set i | 0 <= i < n :: Key(user, orgs[i]))
        invariant tables.rows == BumpUser(old(tables.rows), user)
      {
        Invalidate(Key(user, orgs[n]));
      }
    }
  }

  class RolesGuard {
    const memberships: MembershipService

    constructor (memberships: MembershipService)
      ensures this.memberships == memberships
    {
      this.memberships := memberships;
    }

    /** `claims` is None when the request carries no token that verifies. */
    method CanActivate(isHttp: bool, route: Route, claims: Option<Claims>, now: int) returns (verdict: Verdict)
      modifies memberships`cache
      ensures verdict.Allowed? <==> !isHttp || route.Public?
      ensures verdict.AllowedAs? ==> isHttp && route.NeedsRole? && claims.Some?
      ensures isHttp && route.NeedsRole? && claims.Some? && claims.value.role.None? ==>
                verdict.Forbidden? && memberships.cache == old(memberships.cache)
      ensures isHttp && route.NeedsRole? && claims.Some? && claims.value.role.Some? ==>
                verdict == Judge(Answer(old(memberships.cache), memberships.tables.rows, Key(claims.value.user, claims.value.org), now),
                                 claims.value.version, route.role)
      ensures isHttp && !route.Public? && claims.None? ==> verdict.Unauthorized?
      ensures isHttp && route.Unannotated? && claims.Some? ==> verdict.Forbidden?
    {
      if !isHttp {
        return Allowed;
      }
      if route.Public? {
        return Allowed;
      }
      if claims.None? {
        return Unauthorized;
      }
      if route.Unannotated? {
        return Forbidden;
      }
      if claims.value.role.None? {
        return Forbidden;
      }
      var live := memberships.Current(Key(claims.value.user, claims.value.org), now);
      if live.None? {
        return Unauthorized;
      }
      if live.value.version != claims.value.version {
        return Unauthorized;
      }
      if !RoleAtLeast(live.value.role, route.role) {
        return Forbidden;
      }
      return AllowedAs(live.value.role);
    }
  }
}
