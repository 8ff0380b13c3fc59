/**
 Refresh-token rotation inside families with reuse detection, and the writers it depends on:
 sign-in, switching workspace, password changes, and membership changes.
 */
module Sessions {
  import opened Wrappers

  type User = string
  type OrgId = string
  type Hash = string
  type Family = string

  /** `org` and `family` are None only on rows older than those columns. */
  datatype Token = Token(user: User, org: Option<OrgId>, family: Option<Family>, expiresAt: int, revoked: bool)

  /** Workspaces of a user, oldest membership first. */
  type Memberships = map<User, seq<OrgId>>

  type Tokens = map<Hash, Token>

  datatype Session = Session(user: User, org: OrgId, token: Hash)

  const REFRESH_TOKEN_TTL_MS: int := 30 * 24 * 3600 * 1000

  function OrgsOf(memberships: Memberships, user: User): seq<OrgId> {
    if user in memberships then memberships[user] else []
  }

  // Each of these is one UPDATE that stamps `revokedAt` on the matching rows that do not have it yet.

  function RevokeFamily(tokens: Tokens, family: Family): Tokens {
    map h | h in tokens :: if tokens[h].family == Some(family) then tokens[h].(revoked := true) else tokens[h]
  }

  function RevokeIn(tokens: Tokens, user: User, org: OrgId): Tokens {
    map h | h in tokens ::
      if tokens[h].user == user && tokens[h].org == Some(org) then tokens[h].(revoked := true) else tokens[h]
  }

  function RevokeOthers(tokens: Tokens, user: User, keep: Option<Hash>): Tokens {
    map h | h in tokens :: if tokens[h].user == user && keep != Some(h) then tokens[h].(revoked := true) else tokens[h]
  }

  function RevokeOne(tokens: Tokens, h: Hash): Tokens {
    if h in tokens then tokens[h := tokens[h].(revoked := true)] else tokens
  }

  function Issue(tokens: Tokens, hash: Hash, user: User, org: OrgId, family: Family, now: int): Tokens {
    tokens[hash := Token(user, Some(org), Some(family), now + REFRESH_TOKEN_TTL_MS, false)]
  }

  /** The workspace a rotation returns to: the one it was scoped to if still a member, else the oldest. */
  function RotationTarget(memberships: Memberships, t: Token): Option<OrgId> {
    var orgs := OrgsOf(memberships, t.user);
    if t.org.Some? && t.org.value != "" && t.org.value in orgs then t.org
    else if orgs != [] then Some(orgs[0]) else None
  }

  predicate Usable(tokens: Tokens, h: Hash, now: int) {
    h in tokens && !tokens[h].revoked && now <= tokens[h].expiresAt
  }

  function RefreshAnswer(tokens: Tokens, memberships: Memberships, h: Hash, hash: Hash, now: int): Option<Session> {
    if !Usable(tokens, h, now) then None
    else
      match RotationTarget(memberships, tokens[h])
      case None => None
      case Some(org) => Some(Session(tokens[h].user, org, hash))
  }

  function AfterRefresh(tokens: Tokens, memberships: Memberships, h: Hash, hash: Hash, freshFamily: Family, now: int): Tokens {
    if h !in tokens then tokens
    else if tokens[h].revoked then
      (if tokens[h].family.Some? then RevokeFamily(tokens, tokens[h].family.value) else tokens)
    else if tokens[h].expiresAt < now then tokens
    else
      var rotated := RevokeOne(tokens, h);
      match RotationTarget(memberships, tokens[h])
      case None => rotated
      case Some(org) =>
        Issue(rotated, hash, tokens[h].user, org, if tokens[h].family.Some? then tokens[h].family.value else freshFamily, now)
  }

  function AfterRemoval(memberships: Memberships, user: User, org: OrgId): Memberships {
    if user in memberships then memberships[user := Without(memberships[user], org)] else memberships
  }

  function Without(orgs: seq<OrgId>, org: OrgId): (rest: seq<OrgId>)
    ensures forall o :: o in rest <==> o in orgs && o != org
  {
    if orgs == [] then []
    else if orgs[0] == org then Without(orgs[1..], org)
    else [orgs[0]] + Without(orgs[1..], org)
  }

  predicate Live(tokens: Tokens, h: Hash) {
    h in tokens && !tokens[h].revoked
  }

  /** `after` has lost rows or gained revocations, and nothing else. */
  ghost predicate Fewer(before: Tokens, after: Tokens) {
    forall h :: h in after ==>
                  && h in before
                  && after[h].(revoked := true) == before[h].(revoked := true)
                  && (before[h].revoked ==> after[h].revoked)
  }

  /** Ending every session of a person in a workspace, and no other, is that one UPDATE. */
  lemma {:induction false} EndedIsRevokeIn(before: Tokens, after: Tokens, user: User, org: OrgId)
    requires Fewer(before, after) && after.Keys == before.Keys
    requires forall h :: Live(after, h) ==> !(after[h].user == user && after[h].org == Some(org))
    requires forall h :: Live(before, h) && !(before[h].user == user && before[h].org == Some(org)) ==> Live(after, h)
    ensures after == RevokeIn(before, user, org)
  {
    forall h | h in before
      ensures after[h] == RevokeIn(before, user, org)[h]
    {
      SameButMark(before[h], after[h]);
      assert Live(before, h) <==> !before[h].revoked;
      assert Live(after, h) <==> !after[h].revoked;
    }
  }

  lemma {:induction false} EndedIsRevokeOthers(before: Tokens, after: Tokens, user: User, keep: Option<Hash>)
    requires Fewer(before, after) && after.Keys == before.Keys
    requires forall h :: Live(after, h) && after[h].user == user ==> keep == Some(h)
    requires forall h :: Live(before, h) && (before[h].user != user || keep == Some(h)) ==> Live(after, h)
    ensures after == RevokeOthers(before, user, keep)
  {
    forall h | h in before
      ensures after[h] == RevokeOthers(before, user, keep)[h]
    {
      SameButMark(before[h], after[h]);
      assert Live(before, h) <==> !before[h].revoked;
      assert Live(after, h) <==> !after[h].revoked;
    }
  }

  lemma SameButMark(t: Token, u: Token)
    requires u.(revoked := true) == t.(revoked := true)
    ensures u.user == t.user && u.org == t.org && u == t.(revoked := u.revoked)
  {
  }

  // ---------- The services ----------

  class Tables {
    var tokens: Tokens
    var memberships: Memberships

    constructor ()
      ensures tokens == map[] && memberships == map[]
    {
      tokens, memberships := map[], map[];
    }
  }

  class AuthService {
    const tables: Tables

    constructor (tables: Tables)
      ensures this.tables == tables
    {
      this.tables := tables;
    }

    /** `hash` and `family` are new random values. */
    method CreateSession(user: User, org: OrgId, hash: Hash, family: Family, now: int) returns (session: Session)
      modifies tables`tokens
      ensures session == Session(user, org, hash)
      ensures tables.tokens == Issue(old(tables.tokens), hash, user, org, family, now)
    {
      tables.tokens := tables.tokens[hash := Token(user, Some(org), Some(family), now + REFRESH_TOKEN_TTL_MS, false)];
      session := Session(user, org, hash);
    }

    /** Sign-in after the credentials were checked. */
    method Login(user: User, hash: Hash, freshFamily: Family, now: int) returns (session: Option<Session>)
      modifies tables`tokens
      ensures session == (if OrgsOf(tables.memberships, user) == [] then None
                          else Some(Session(user, OrgsOf(tables.memberships, user)[0], hash)))
      ensures tables.tokens == if session.None? then old(tables.tokens)
                               else Issue(old(tables.tokens), hash, user, session.value.org, freshFamily, now)
    {
      var orgs := OrgsOf(tables.memberships, user);
      if orgs == [] {
        return None;
      }
      var s := CreateSession(user, orgs[0], hash, freshFamily, now);
      return Some(s);
    }

    method Refresh(presented: Hash, hash: Hash, freshFamily: Family, now: int) returns (session: Option<Session>)
      modifies tables`tokens
      ensures session == RefreshAnswer(old(tables.tokens), tables.memberships, presented, hash, now)
      ensures tables.tokens == AfterRefresh(old(tables.tokens), tables.memberships, presented, hash, freshFamily, now)
    {
      if presented !in tables.tokens {
        return None;
      }
      var stored := tables.tokens[presented];
      if stored.revoked {
        // Either an old value replayed or somebody else's copy: the whole family ends.
        if stored.family.Some? {
          tables.tokens := RevokeFamily(tables.tokens, stored.family.value);
        }
        return None;
      }
      if stored.expiresAt < now {
        return None;
      }
      tables.tokens := tables.tokens[presented := stored.(revoked := true)];
      var target := RotationTarget(tables.memberships, stored);
      if target.None? {
        return None;
      }
      var family := if stored.family.Some? then stored.family.value else freshFamily;
      var s := CreateSession(stored.user, target.value, hash, family, now);
      return Some(s);
    }

    method Logout(presented: Option<Hash>)
      modifies tables`tokens
      ensures tables.tokens == if presented.Some? then RevokeOne(old(tables.tokens), presented.value) else old(tables.tokens)
    {
      if presented.None? {
        return;
      }
      if presented.value in tables.tokens {
        tables.tokens := tables.tokens[presented.value := tables.tokens[presented.value].(revoked := true)];
      }
    }

    method SwitchOrg(user: User, org: OrgId, hash: Hash, freshFamily: Family, now: int) returns (session: Option<Session>)
      modifies tables`tokens
      ensures session == if org in OrgsOf(tables.memberships, user) then Some(Session(user, org, hash)) else None
      ensures tables.tokens == if session.None? then old(tables.tokens)
                               else Issue(old(tables.tokens), hash, user, org, freshFamily, now)
    {
      if org !in OrgsOf(tables.memberships, user) {
        return None;
      }
      var s := CreateSession(user, org, hash, freshFamily, now);
      return Some(s);
    }

    /** The refresh-token half of a password change: every session of the user but the one named. */
    method EndOtherSessions(user: User, keep: Option<Hash>)
      modifies tables`tokens
      ensures forall h :: Live(tables.tokens, h) && tables.tokens[h].user == user ==> keep == Some(h)
      ensures forall h :: Live(old(tables.tokens), h) && (old(tables.tokens)[h].user != user || keep == Some(h)) ==> Live(tables.tokens, h)
      ensures Fewer(old(tables.tokens), tables.tokens) && tables.tokens.Keys == old(tables.tokens).Keys
    {
      tables.tokens := RevokeOthers(tables.tokens, user, keep);
    }

    /** The last steps of accepting an invitation into a workspace the user does not belong to yet. */
    method Join(user: User, org: OrgId, hash: Hash, freshFamily: Family, now: int) returns (session: Option<Session>)
      modifies tables
      ensures session == if org in OrgsOf(old(tables.memberships), user) then None else Some(Session(user, org, hash))
      ensures tables.memberships == if session.None? then old(tables.memberships)
                                    else old(tables.memberships)[user := OrgsOf(old(tables.memberships), user) + [org]]
      ensures tables.tokens == if session.None? then old(tables.tokens)
                               else Issue(old(tables.tokens), hash, user, org, freshFamily, now)
    {
      var orgs := OrgsOf(tables.memberships, user);
      if org in orgs {
        return None;
      }
      tables.memberships := tables.memberships[user := orgs + [org]];
      var s := CreateSession(user, org, hash, freshFamily, now);
      return Some(s);
    }
  }

  class MembersService {
    const tables: Tables

    constructor (tables: Tables)
      ensures this.tables == tables
    {
      this.tables := tables;
    }

    /** Ends the person's sessions in this workspace only. */
    method RevokeSessions(user: User, org: OrgId)
      modifies tables`tokens
      ensures forall h :: Live(tables.tokens, h) ==> !(tables.tokens[h].user == user && tables.tokens[h].org == Some(org))
      ensures forall h :: Live(old(tables.tokens), h) && !(old(tables.tokens)[h].user == user && old(tables.tokens)[h].org == Some(org)) ==>
                            Live(tables.tokens, h)
      ensures Fewer(old(tables.tokens), tables.tokens) && tables.tokens.Keys == old(tables.tokens).Keys
    {
      tables.tokens := RevokeIn(tables.tokens, user, org);
    }

    /** Removing a member deletes the membership first and then ends its sessions. */
    method Remove(user: User, org: OrgId) returns (found: bool)
      modifies tables
      ensures found == (org in OrgsOf(old(tables.memberships), user))
      ensures tables.memberships == if found then AfterRemoval(old(tables.memberships), user, org) else old(tables.memberships)
      ensures tables.tokens == if found then RevokeIn(old(tables.tokens), user, org) else old(tables.tokens)
    {
      found := org in OrgsOf(tables.memberships, user);
      if found {
        tables.memberships := AfterRemoval(tables.memberships, user, org);
        RevokeSessions(user, org);
        EndedIsRevokeIn(old(tables.tokens), tables.tokens, user, org);
      }
    }
  }

  // ---------- Serialised runs ----------

  /** `seenHashes` and `seenFamilies` make "fresh" precise; `burned` are the families caught in reuse. */
  datatype State = State(
    tokens: Tokens,
    memberships: Memberships,
    clock: int,
    seenHashes: set<Hash>,
    seenFamilies: set<Family>,
    burned: set<Family>)

  datatype Event =
    | Wait(ms: nat)
    | SignIn(user: User, hash: Hash, family: Family)
    | Present(h: Hash, hash: Hash, family: Family)
    | SignOut(h: Hash)
    | Switch(user: User, org: OrgId, hash: Hash, family: Family)
    | NewPassword(user: User, keep: Option<Hash>)
    | AcceptInvite(user: User, org: OrgId, hash: Hash, family: Family)
    | ChangeRole(user: User, org: OrgId)
    | RemoveMember(user: User, org: OrgId)
    /** The retention job: any rows that are revoked or past their expiry. */
    | Purge(rows: set<Hash>)

  ghost predicate Init(s: State) {
    && (forall h :: h in s.tokens ==> s.tokens[h].org.None? && s.tokens[h].family.None?)
    && s.tokens.Keys <= s.seenHashes
    && s.burned == {}
    && (forall u :: u in s.memberships ==> "" !in s.memberships[u])
  }

  predicate Fresh(s: State, h: Hash, f: Family) {
    h !in s.seenHashes && f !in s.seenFamilies
  }

  ghost predicate Enabled(s: State, e: Event) {
    match e
    case SignIn(_, h, f) => Fresh(s, h, f)
    case Present(_, h, f) => Fresh(s, h, f)
    case Switch(_, _, h, f) => Fresh(s, h, f)
    case AcceptInvite(_, org, h, f) => org != "" && Fresh(s, h, f)
    case Purge(rows) => forall h :: h in rows && h in s.tokens ==> s.tokens[h].revoked || s.tokens[h].expiresAt < s.clock
    case _ => true
  }

  function Seen(s: State, h: Hash, f: Family): State {
    s.(seenHashes := s.seenHashes + {h}, seenFamilies := s.seenFamilies + {f})
  }

  function Next(s: State, e: Event): State {
    match e
    case Wait(ms) => s.(clock := s.clock + ms)
    case SignIn(user, h, f) =>
      var orgs := OrgsOf(s.memberships, user);
      if orgs == [] then s
      else Seen(s, h, f).(tokens := Issue(s.tokens, h, user, orgs[0], f, s.clock))
    case Present(p, h, f) =>
      var reused := p in s.tokens && s.tokens[p].revoked && s.tokens[p].family.Some?;
      Seen(s, h, f).(
        tokens := AfterRefresh(s.tokens, s.memberships, p, h, f, s.clock),
        burned := if reused then s.burned + {s.tokens[p].family.value} else s.burned)
    case SignOut(h) => s.(tokens := RevokeOne(s.tokens, h))
    case Switch(user, org, h, f) =>
      if org in OrgsOf(s.memberships, user) then Seen(s, h, f).(tokens := Issue(s.tokens, h, user, org, f, s.clock)) else s
    case NewPassword(user, keep) => s.(tokens := RevokeOthers(s.tokens, user, keep))
    case AcceptInvite(user, org, h, f) =>
      if org in OrgsOf(s.memberships, user) then s
      else Seen(s, h, f).(memberships := s.memberships[user := OrgsOf(s.memberships, user) + [org]],
                          tokens := Issue(s.tokens, h, user, org, f, s.clock))
    case ChangeRole(user, org) =>
      if org in OrgsOf(s.memberships, user) then s.(tokens := RevokeIn(s.tokens, user, org)) else s
    case RemoveMember(user, org) =>
      if org !in OrgsOf(s.memberships, user) then s
      else s.(memberships := AfterRemoval(s.memberships, user, org), tokens := RevokeIn(s.tokens, user, org))
    case Purge(rows) => s.(tokens := s.tokens - rows)
  }

  ghost predicate Run(s: State, events: seq<Event>, s': State)
    decreases |events|
  {
    if events == [] then s' == s
    else Enabled(s, events[0]) && Run(Next(s, events[0]), events[1..], s')
  }

  predicate SameFamily(t: Token, u: Token) {
    t.family.Some? && t.family == u.family
  }

  /** At most one unrevoked token in a family. */
  ghost predicate OnePerFamily(tokens: Tokens) {
    forall g, h :: Live(tokens, g) && Live(tokens, h) && SameFamily(tokens[g], tokens[h]) ==> g == h
  }

  /** An unrevoked token scoped to a workspace belongs to a current member of it. */
  ghost predicate HoldersAreMembers(tokens: Tokens, memberships: Memberships) {
    forall h :: Live(tokens, h) && tokens[h].org.Some? ==>
                  tokens[h].org.value in OrgsOf(memberships, tokens[h].user)
  }

  ghost predicate BurnedAreDead(tokens: Tokens, burned: set<Family>) {
    forall h :: Live(tokens, h) && tokens[h].family.Some? ==> tokens[h].family.value !in burned
  }

  /** All of a family belongs to one user in one workspace. */
  ghost predicate FamilyScope(tokens: Tokens) {
    && (forall h :: h in tokens && tokens[h].family.Some? ==> tokens[h].org.Some?)
    && (forall g, h :: g in tokens && h in tokens && SameFamily(tokens[g], tokens[h]) ==>
          tokens[g].user == tokens[h].user && tokens[g].org == tokens[h].org)
  }

  ghost predicate Named(tokens: Tokens, hashes: set<Hash>, families: set<Family>) {
    forall h :: h in tokens ==>
                  && h in hashes
                  && (tokens[h].family.Some? ==> tokens[h].family.value in families)
                  && (tokens[h].org.Some? ==> tokens[h].org.value != "")
  }

  ghost predicate Inv(s: State) {
    && OnePerFamily(s.tokens)
    && HoldersAreMembers(s.tokens, s.memberships)
    && BurnedAreDead(s.tokens, s.burned)
    && FamilyScope(s.tokens)
    && Named(s.tokens, s.seenHashes, s.seenFamilies)
    && s.burned <= s.seenFamilies
    && (forall u :: u in s.memberships ==> "" !in s.memberships[u])
  }

  lemma {:induction false} IssueKeepsInv(s: State, s': State, user: User, org: OrgId, h: Hash, f: Family, now: int)
    requires Inv(s)
    requires h !in s.seenHashes && org in OrgsOf(s'.memberships, user) && org != ""
    requires f !in s.burned
    requires forall g :: g in s.tokens && s.tokens[g].family == Some(f) ==>
               s.tokens[g].revoked && s.tokens[g].user == user && s.tokens[g].org == Some(org)
    requires forall u, o :: o in OrgsOf(s.memberships, u) ==> o in OrgsOf(s'.memberships, u)
    requires forall u :: u in s'.memberships ==> "" !in s'.memberships[u]
    requires s' == s.(tokens := Issue(s.tokens, h, user, org, f, now), memberships := s'.memberships,
                      seenHashes := s.seenHashes + {h}, seenFamilies := s'.seenFamilies)
    requires s.seenFamilies + {f} <= s'.seenFamilies
    ensures Inv(s')
  {
  }

  lemma FewerKeepsTokens(before: Tokens, after: Tokens, memberships: Memberships)
    requires Fewer(before, after)
    ensures OnePerFamily(before) ==> OnePerFamily(after)
    ensures FamilyScope(before) ==> FamilyScope(after)
    ensures HoldersAreMembers(before, memberships) ==> HoldersAreMembers(after, memberships)
    ensures forall hashes, families :: Named(before, hashes, families) ==> Named(after, hashes, families)
    ensures forall burned :: BurnedAreDead(before, burned) ==> BurnedAreDead(after, burned)
  {
    assert forall h :: h in after ==> after[h].user == before[h].user && after[h].org == before[h].org &&
                                      after[h].family == before[h].family;
    assert forall h :: Live(after, h) ==> Live(before, h);
  }

  lemma FewerKeepsInv(s: State, s': State)
    requires Inv(s) && Fewer(s.tokens, s'.tokens) && s' == s.(tokens := s'.tokens)
    ensures Inv(s')
  {
    FewerKeepsTokens(s.tokens, s'.tokens, s.memberships);
  }

  lemma RotationKeepsInv(s: State, p: Hash, h: Hash, f: Family)
    requires Inv(s) && Fresh(s, h, f) && Usable(s.tokens, p, s.clock)
    ensures Inv(Next(s, Present(p, h, f)))
  {
    var s' := Next(s, Present(p, h, f));
    var rotated := s.(tokens := RevokeOne(s.tokens, p));
    FewerKeepsInv(s, rotated);
    var t := s.tokens[p];
    var target := RotationTarget(s.memberships, t);
    if target.Some? {
      var family := if t.family.Some? then t.family.value else f;
      forall g | g in rotated.tokens && rotated.tokens[g].family == Some(family)
        ensures rotated.tokens[g].revoked && rotated.tokens[g].user == t.user && rotated.tokens[g].org == target
      {
        assert SameFamily(s.tokens[g], t);
        if g != p && Live(s.tokens, g) {
          assert Live(s.tokens, p);
        }
      }
      IssueKeepsInv(rotated, s', t.user, target.value, h, family, s.clock);
    } else {
      assert s' == Seen(rotated, h, f);
    }
  }

  lemma PresentKeepsInv(s: State, p: Hash, h: Hash, f: Family)
    requires Inv(s) && Fresh(s, h, f)
    ensures Inv(Next(s, Present(p, h, f)))
  {
    var s' := Next(s, Present(p, h, f));
    if Usable(s.tokens, p, s.clock) {
      RotationKeepsInv(s, p, h, f);
    } else if p in s.tokens && s.tokens[p].revoked && s.tokens[p].family.Some? {
      var ended := s.(tokens := RevokeFamily(s.tokens, s.tokens[p].family.value));
      FewerKeepsInv(s, ended);
    }
  }

  lemma RemovalKeepsInv(s: State, user: User, org: OrgId)
    requires Inv(s)
    ensures Inv(Next(s, RemoveMember(user, org)))
  {
    var s' := Next(s, RemoveMember(user, org));
    FewerKeepsTokens(s.tokens, s'.tokens, s.memberships);
    forall h | Live(s'.tokens, h) && s'.tokens[h].org.Some?
      ensures s'.tokens[h].org.value in OrgsOf(s'.memberships, s'.tokens[h].user)
    {
      assert Live(s.tokens, h);
    }
  }

  lemma InvStep(s: State, e: Event)
    requires Inv(s) && Enabled(s, e)
    ensures Inv(Next(s, e))
  {
    match e
    case Present(p, h, f) => PresentKeepsInv(s, p, h, f);
    case SignIn(user, h, f) =>
      var orgs := OrgsOf(s.memberships, user);
      if orgs != [] {
        IssueKeepsInv(s, Next(s, e), user, orgs[0], h, f, s.clock);
      }
    case Switch(user, org, h, f) =>
      if org in OrgsOf(s.memberships, user) {
        IssueKeepsInv(s, Next(s, e), user, org, h, f, s.clock);
      }
    case AcceptInvite(user, org, h, f) =>
      if org !in OrgsOf(s.memberships, user) {
        IssueKeepsInv(s, Next(s, e), user, org, h, f, s.clock);
      }
    case RemoveMember(user, org) => RemovalKeepsInv(s, user, org);
    case Wait(_) =>
    case SignOut(h) => FewerKeepsInv(s, Next(s, e));
    case NewPassword(user, keep) => FewerKeepsInv(s, Next(s, e));
    case ChangeRole(user, org) => FewerKeepsInv(s, Next(s, e));
    case Purge(rows) => FewerKeepsInv(s, Next(s, e));
  }

  lemma InitInv(s: State)
    requires Init(s)
    ensures Inv(s)
  {
  }

  lemma {:induction false} InvRun(s: State, events: seq<Event>, s': State)
    requires Inv(s) && Run(s, events, s')
    ensures Inv(s')
    decreases |events|
  {
    if events != [] {
      InvStep(s, events[0]);
      InvRun(Next(s, events[0]), events[1..], s');
    }
  }

  // ---------- The guarantees ----------

  /** In every serialised run a family has at most one unrevoked token, and its holder is a member. */
  lemma FamilyInvariant(start: State, events: seq<Event>, s: State)
    requires Init(start) && Run(start, events, s)
    ensures OnePerFamily(s.tokens)
    ensures HoldersAreMembers(s.tokens, s.memberships)
  {
    InitInv(start);
    InvRun(start, events, s);
  }

  /** Rotation continues the family in the very workspace the session was scoped to. */
  lemma RotationKeepsWorkspace(start: State, events: seq<Event>, s: State, p: Hash, h: Hash, f: Family)
    requires Init(start) && Run(start, events, s) && Fresh(s, h, f)
    requires Usable(s.tokens, p, s.clock) && s.tokens[p].org.Some?
    ensures RefreshAnswer(s.tokens, s.memberships, p, h, s.clock) == Some(Session(s.tokens[p].user, s.tokens[p].org.value, h))
    ensures var after := Next(s, Present(p, h, f)).tokens;
            && after[p].revoked
            && after[h].user == s.tokens[p].user && after[h].org == s.tokens[p].org && !after[h].revoked
            && (s.tokens[p].family.Some? ==> after[h].family == s.tokens[p].family)
  {
    InitInv(start);
    InvRun(start, events, s);
  }

  lemma {:induction false} BurnedGrows(s: State, events: seq<Event>, s': State)
    requires Run(s, events, s')
    ensures s.burned <= s'.burned
    decreases |events|
  {
    if events != [] {
      BurnedGrows(Next(s, events[0]), events[1..], s');
    }
  }

  /** Presenting a revoked token ends its family for good: no later state has a live token in it. */
  lemma ReuseEndsFamily(start: State, before: seq<Event>, s: State, p: Hash, h: Hash, f: Family, events: seq<Event>, later: State)
    requires Init(start) && Run(start, before, s) && Fresh(s, h, f)
    requires p in s.tokens && s.tokens[p].revoked && s.tokens[p].family.Some?
    requires Run(Next(s, Present(p, h, f)), events, later)
    ensures RefreshAnswer(s.tokens, s.memberships, p, h, s.clock) == None
    ensures forall t :: t in later.tokens && later.tokens[t].family == s.tokens[p].family ==> later.tokens[t].revoked
  {
    InitInv(start);
    InvRun(start, before, s);
    InvStep(s, Present(p, h, f));
    InvRun(Next(s, Present(p, h, f)), events, later);
    BurnedGrows(Next(s, Present(p, h, f)), events, later);
  }
}
