/**
 Password-reset tokens: asking for a new one retires the old ones, and consuming one is a
 conditional update that at most one request can win.
 */
module PasswordReset {
  import opened Wrappers

  type User = string

  /** SHA-256 of the token in the email; the hash is injective, so it stands for the token. */
  type Hash = string

  datatype Token = Token(user: User, expiresAt: int, used: bool)

  type Tokens = map<Hash, Token>

  const TTL_MS: int := 30 * 60_000

  function Retire(tokens: Tokens, user: User): Tokens {
    map h | h in tokens :: if tokens[h].user == user then tokens[h].(used := true) else tokens[h]
  }

  predicate Usable(tokens: Tokens, h: Hash, now: int) {
    h in tokens && !tokens[h].used && now <= tokens[h].expiresAt
  }

  function Outstanding(tokens: Tokens, user: User): set<Hash> {
    set h | h in tokens && tokens[h].user == user && !tokens[h].used
  }

  function Purge(tokens: Tokens, before: int): Tokens {
    map h | h in tokens && before <= tokens[h].expiresAt :: tokens[h]
  }

  class PasswordResetService {
    var users: map<string, User>
    var tokens: Tokens
    var passwords: map<User, string>
    var signedIn: set<User>

    constructor (users: map<string, User>)
      ensures this.users == users && tokens == map[] && passwords == map[] && signedIn == {}
    {
      this.users, tokens, passwords, signedIn := users, map[], map[], {};
    }

    /** `address` is already trimmed and lower-cased; an unknown one changes nothing. */
    method Request(address: string, hash: Hash, now: int)
      requires hash !in tokens
      modifies this`tokens
      ensures address !in users ==> tokens == old(tokens)
      ensures address in users ==>
                && tokens == Retire(old(tokens), users[address])[hash := Token(users[address], now + TTL_MS, false)]
                && Outstanding(tokens, users[address]) == {hash}
    {
      if address !in users {
        return;
      }
      var user := users[address];
      tokens := Retire(tokens, user);
      tokens := tokens[hash := Token(user, now + TTL_MS, false)];
    }

    /** `signedIn` are the users holding an unrevoked refresh token. */
    method Consume(hash: Hash, newPassword: string, now: int) returns (user: Option<User>)
      modifies this`tokens, this`passwords, this`signedIn
      ensures user == if Usable(old(tokens), hash, now) then Some(old(tokens)[hash].user) else None
      ensures user.None? ==> tokens == old(tokens) && passwords == old(passwords) && signedIn == old(signedIn)
      ensures user.Some? ==>
                && tokens == old(tokens)[hash := old(tokens)[hash].(used := true)]
                && passwords == old(passwords)[user.value := newPassword]
                && signedIn == old(signedIn) - {user.value}
    {
      if hash !in tokens || tokens[hash].used || tokens[hash].expiresAt < now {
        return None;
      }
      var record := tokens[hash];
      tokens := tokens[hash := record.(used := true)];
      passwords := passwords[record.user := newPassword];
      signedIn := signedIn - {record.user};
      return Some(record.user);
    }

    method PurgeExpired(before: int) returns (count: nat)
      modifies this`tokens
      ensures tokens == Purge(old(tokens), before)
      ensures count == |old(tokens)| - |tokens|
    {
      ghost var was := tokens;
      var kept := Purge(tokens, before);
      assert kept.Keys <= tokens.Keys;
      SubsetSize(kept.Keys, tokens.Keys);
      count := |tokens| - |kept|;
      tokens := kept;
    }
  }

  lemma SubsetSize<T>(a: set<T>, b: set<T>)
    requires a <= b
    ensures |a| <= |b|
  {
    assert b == a + (b - a);
  }

  // ---------- Races ----------

  /** `claimed` are the tokens whose reset went through, in order. */
  datatype State = State(tokens: Tokens, pending: map<nat, Hash>, seen: set<Hash>, claimed: seq<Hash>, clock: int)

  /** Each statement of `Request` and `Consume` is a step of its own. */
  datatype Event =
    | Wait(ms: nat)
    | RetireAll(user: User)
    | Create(user: User, hash: Hash)
    | Read(request: nat, hash: Hash)
    | TryClaim(request: nat)
    | Sweep(before: int)

  ghost predicate Init(s: State) {
    s.tokens == map[] && s.pending == map[] && s.claimed == []
  }

  ghost predicate Enabled(s: State, e: Event) {
    match e
    case Create(_, hash) => hash !in s.seen
    case Read(r, hash) => r !in s.pending && Usable(s.tokens, hash, s.clock)
    case TryClaim(r) => r in s.pending
    case _ => true
  }

  function Next(s: State, e: Event): State {
    match e
    case Wait(ms) => s.(clock := s.clock + ms)
    case RetireAll(user) => s.(tokens := Retire(s.tokens, user))
    case Create(user, hash) => s.(tokens := s.tokens[hash := Token(user, s.clock + TTL_MS, false)], seen := s.seen + {hash})
    case Read(r, hash) => s.(pending := s.pending[r := hash])
    case TryClaim(r) =>
      if r !in s.pending then s
      else
        var h := s.pending[r];
        if h in s.tokens && !s.tokens[h].used then
          s.(tokens := s.tokens[h := s.tokens[h].(used := true)], pending := s.pending - {r}, claimed := s.claimed + [h])
        else s.(pending := s.pending - {r})
    case Sweep(before) => s.(tokens := Purge(s.tokens, before))
  }

  ghost predicate Run(s: State, events: seq<Event>, s': State)
    decreases |events|
  {
    if events == [] then s' == s
    else Enabled(s, events[0]) && Run(Next(s, events[0]), events[1..], s')
  }

  /** A token that can no longer be claimed, now or ever: its hash is not fresh and it is used or gone. */
  predicate Dead(s: State, h: Hash) {
    h in s.seen && (h in s.tokens ==> s.tokens[h].used)
  }

  ghost predicate Inv(s: State) {
    && s.tokens.Keys <= s.seen
    && (forall i :: 0 <= i < |s.claimed| ==> Dead(s, s.claimed[i]))
    && (forall i, j :: 0 <= i < j < |s.claimed| ==> s.claimed[i] != s.claimed[j])
  }

  lemma {:induction false} InvRun(s: State, events: seq<Event>, s': State)
    requires Inv(s) && Run(s, events, s')
    ensures Inv(s')
    decreases |events|
  {
    if events != [] {
      assert Inv(Next(s, events[0]));
      InvRun(Next(s, events[0]), events[1..], s');
    }
  }

  lemma {:induction false} DeadForGood(s: State, events: seq<Event>, s': State, h: Hash)
    requires Run(s, events, s') && Dead(s, h)
    ensures Dead(s', h)
    ensures |s.claimed| <= |s'.claimed|
    ensures forall i :: |s.claimed| <= i < |s'.claimed| ==> s'.claimed[i] != h
    decreases |events|
  {
    if events != [] {
      var mid := Next(s, events[0]);
      DeadForGood(mid, events[1..], s', h);
      ClaimsGrow(mid, events[1..], s');
    }
  }

  lemma {:induction false} ClaimsGrow(s: State, events: seq<Event>, s': State)
    requires Run(s, events, s')
    ensures s.claimed <= s'.claimed
    decreases |events|
  {
    if events != [] {
      ClaimsGrow(Next(s, events[0]), events[1..], s');
    }
  }

  /** In every interleaving each token resets a password at most once. */
  lemma EachTokenOnce(start: State, events: seq<Event>, s: State)
    requires Init(start) && start.tokens.Keys <= start.seen && Run(start, events, s)
    ensures forall i, j :: 0 <= i < j < |s.claimed| ==> s.claimed[i] != s.claimed[j]
  {
    InvRun(start, events, s);
  }

  /** Once a new request has retired a user's links, none of them works again, even for a request that read it before. */
  lemma RetiredLinksStayDead(start: State, before: seq<Event>, s: State, user: User, events: seq<Event>, later: State, h: Hash)
    requires Init(start) && Run(start, before, s)
    requires h in s.tokens && s.tokens[h].user == user
    requires Run(Next(s, RetireAll(user)), events, later)
    ensures forall i :: |s.claimed| <= i < |later.claimed| ==> later.claimed[i] != h
  {
    InvRun(start, before, s);
    DeadForGood(Next(s, RetireAll(user)), events, later, h);
  }

  // ---------- How many links are outstanding ----------

  /** The tokens these events create for a user. */
  function CreatedFor(events: seq<Event>, user: User): set<Hash>
    decreases |events|
  {
    if events == [] then {}
    else (if events[0].Create? && events[0].user == user then {events[0].hash} else {}) + CreatedFor(events[1..], user)
  }

  predicate IsSpent(s: State, h: Hash) {
    h !in s.tokens || exists i :: 0 <= i < |s.claimed| && s.claimed[i] == h
  }

  /** The user's links: created since the last retirement, neither claimed nor purged. */
  ghost predicate LinksAre(s: State, user: User, created: set<Hash>) {
    && created <= s.seen
    && (forall h :: h in Outstanding(s.tokens, user) <==> h in created && !IsSpent(s, h))
    && (forall h :: h in created && h in s.tokens ==> s.tokens[h].user == user)
  }

  lemma {:induction false} ClaimedAppends(s: State, h: Hash, x: Hash)
    ensures (exists i :: 0 <= i < |s.claimed + [h]| && (s.claimed + [h])[i] == x)
            <==> x == h || exists i :: 0 <= i < |s.claimed| && s.claimed[i] == x
  {
    if i :| 0 <= i < |s.claimed| && s.claimed[i] == x {
      assert (s.claimed + [h])[i] == x;
    }
    assert (s.claimed + [h])[|s.claimed|] == h;
  }

  lemma {:induction false} LinksStep(s: State, e: Event, user: User, created: set<Hash>)
    requires Inv(s) && Enabled(s, e) && e != RetireAll(user) && LinksAre(s, user, created)
    ensures LinksAre(Next(s, e), user, created + CreatedFor([e], user))
  {
    var s' := Next(s, e);
    assert [e][1..] == [];
    assert CreatedFor([e], user) == if e.Create? && e.user == user then {e.hash} else {};
    forall h
      ensures h in Outstanding(s'.tokens, user) <==> h in created + CreatedFor([e], user) && !IsSpent(s', h)
    {
      if e.TryClaim? {
        ClaimedAppends(s, s.pending[e.request], h);
      }
      if e.Create? && h == e.hash {
        FreshIsUnclaimed(s, h);
      }
    }
  }

  lemma {:induction false} FreshIsUnclaimed(s: State, h: Hash)
    requires Inv(s) && h !in s.seen
    ensures h !in s.tokens && forall i :: 0 <= i < |s.claimed| ==> s.claimed[i] != h
  {
    forall i | 0 <= i < |s.claimed|
      ensures s.claimed[i] != h
    {
      assert Dead(s, s.claimed[i]);
    }
  }

  lemma {:induction false} LinksThrough(s: State, events: seq<Event>, s': State, user: User, created: set<Hash>)
    requires Inv(s) && Run(s, events, s') && LinksAre(s, user, created)
    requires forall i :: 0 <= i < |events| ==> events[i] != RetireAll(user)
    ensures LinksAre(s', user, created + CreatedFor(events, user))
    decreases |events|
  {
    if events == [] {
      assert created + {} == created;
    } else {
      LinksStep(s, events[0], user, created);
      InvRun(s, [events[0]], Next(s, events[0]));
      LinksThrough(Next(s, events[0]), events[1..], s', user, created + CreatedFor([events[0]], user));
      assert [events[0]][1..] == [];
      assert created + CreatedFor([events[0]], user) + CreatedFor(events[1..], user) == created + CreatedFor(events, user);
    }
  }

  /**
   Every link that works was created since the user's links were last retired, and has been neither claimed
   nor purged; and every such link works.  So asking again retires the older links exactly if nothing
   that was under way then creates its link later.
   */
  lemma {:induction false} LinksSinceRetirement(start: State, before: seq<Event>, s: State, user: User, events: seq<Event>, later: State, h: Hash)
    requires Init(start) && Run(start, before, s) && Run(Next(s, RetireAll(user)), events, later)
    requires forall i :: 0 <= i < |events| ==> events[i] != RetireAll(user)
    ensures h in Outstanding(later.tokens, user) <==> h in CreatedFor(events, user) && !IsSpent(later, h)
  {
    InvRun(start, before, s);
    InvRun(s, [RetireAll(user)], Next(s, RetireAll(user)));
    assert Outstanding(Next(s, RetireAll(user)).tokens, user) == {};
    LinksThrough(Next(s, RetireAll(user)), events, later, user, {});
    assert {} + CreatedFor(events, user) == CreatedFor(events, user);
  }

  /** With nothing claimed or purged meanwhile, as many links work as were created, so one exactly if one was. */
  lemma {:induction false} LinksCountCreations(start: State, before: seq<Event>, s: State, user: User, events: seq<Event>, later: State)
    requires Init(start) && Run(start, before, s) && Run(Next(s, RetireAll(user)), events, later)
    requires forall i :: 0 <= i < |events| ==> events[i] != RetireAll(user)
    requires forall h :: h in CreatedFor(events, user) ==> !IsSpent(later, h)
    ensures |Outstanding(later.tokens, user)| == |CreatedFor(events, user)|
  {
    forall h
      ensures h in Outstanding(later.tokens, user) <==> h in CreatedFor(events, user)
    {
      LinksSinceRetirement(start, before, s, user, events, later, h);
    }
    assert Outstanding(later.tokens, user) == CreatedFor(events, user);
  }

  /** Two requests that both retire before either creates leave two working links. */
  lemma {:induction false} OverlappingRequestsLeaveTwo(s: State, user: User, a: Hash, b: Hash) returns (s': State)
    requires a != b && a !in s.seen && b !in s.seen
    ensures Run(s, [RetireAll(user), RetireAll(user), Create(user, a), Create(user, b)], s')
    ensures Outstanding(s'.tokens, user) == {a, b}
  {
    var s1 := Next(s, RetireAll(user));
    var s2 := Next(s1, RetireAll(user));
    var s3 := Next(s2, Create(user, a));
    s' := Next(s3, Create(user, b));
    var last := [Create(user, b)];
    assert last[1..] == [] && Run(s3, last, s');
    var two := [Create(user, a), Create(user, b)];
    assert two[1..] == last && Run(s2, two, s');
    var three := [RetireAll(user), Create(user, a), Create(user, b)];
    assert three[1..] == two && Run(s1, three, s');
    assert [RetireAll(user), RetireAll(user), Create(user, a), Create(user, b)][1..] == three;
  }
}
