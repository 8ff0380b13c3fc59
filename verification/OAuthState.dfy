/**
 The single-use, browser-bound `state` of a provider sign-in: a signed claim set that travels, a
 record that stays in the store and is taken once, and a nonce that never leaves the browser.
 */
module OAuthState {
  import opened Wrappers

  type Jti = string
  type Nonce = string

  datatype Provider = Meta | Instagram | Tiktok | Linkedin | Reddit

  /** The nonce's hash is injective, so the claims carry the nonce itself. */
  datatype Claims = Claims(orgId: string, userId: string, provider: Provider, jti: Jti, nonce: Nonce, expiresAt: int)

  datatype Record = Record(orgId: string, userId: string, codeVerifier: Option<string>, expiresAt: int)

  type Store = map<Jti, Record>

  const STATE_TTL_MS: int := 10 * 60 * 1000

  /** What the signing key has signed; a state verifies only if it is among these and unexpired. */
  predicate Verifies(signed: set<Claims>, claims: Claims, now: int) {
    claims in signed && now < claims.expiresAt
  }

  function PkceSupported(provider: Provider): bool {
    provider.Tiktok?
  }

  /** GETDEL on a key with a TTL. */
  function Take(store: Store, jti: Jti, now: int): Option<Record> {
    if jti in store && now < store[jti].expiresAt then Some(store[jti]) else None
  }

  predicate Agrees(record: Record, claims: Claims) {
    record.orgId == claims.orgId && record.userId == claims.userId
  }

  datatype Consumed = Consumed(orgId: string, userId: string, codeVerifier: Option<string>)

  datatype Refusal = NotValid | WrongPlatform | WrongBrowser | AlreadyUsed | Mismatch | StoreDown

  datatype Result = Ok(value: Consumed) | Refused(why: Refusal)

  class OAuthStateService {
    var store: Store
    var signed: set<Claims>

    constructor ()
      ensures store == map[] && signed == {}
    {
      store, signed := map[], {};
    }

    /** `jti`, `nonce` and `verifier` are fresh.  The record is stored before the state exists. */
    method Issue(provider: Provider, orgId: string, userId: string, jti: Jti, nonce: Nonce, verifier: string, storeDown: bool, now: int)
        returns (claims: Option<Claims>)
      requires jti !in store
      modifies this
      ensures storeDown ==> claims.None? && store == old(store) && signed == old(signed)
      ensures !storeDown ==>
                && claims == Some(Claims(orgId, userId, provider, jti, nonce, now + STATE_TTL_MS))
                && signed == old(signed) + {claims.value}
                && store == old(store)[jti := Record(orgId, userId, if PkceSupported(provider) then Some(verifier) else None, now + STATE_TTL_MS)]
    {
      if storeDown {
        return None;
      }
      var codeVerifier := if PkceSupported(provider) then Some(verifier) else None;
      store := store[jti := Record(orgId, userId, codeVerifier, now + STATE_TTL_MS)];
      var c := Claims(orgId, userId, provider, jti, nonce, now + STATE_TTL_MS);
      signed := signed + {c};
      return Some(c);
    }

    /** `cookie` is the nonce in this browser's cookie for the provider, or empty; `cleared` says it is taken away. */
    method Consume(provider: Provider, state: Claims, cookie: Nonce, storeDown: bool, now: int) returns (result: Result, cleared: bool)
      modifies this`store
      ensures result == Refused(NotValid) <==> !Verifies(signed, state, now)
      ensures result == Refused(WrongPlatform) <==> Verifies(signed, state, now) && state.provider != provider
      ensures cleared <==> Verifies(signed, state, now) && state.provider == provider && cookie != "" && cookie == state.nonce
      ensures result == Refused(WrongBrowser) <==> Verifies(signed, state, now) && state.provider == provider && !cleared
      ensures result == Refused(StoreDown) <==> cleared && storeDown
      ensures result == Refused(AlreadyUsed) <==> cleared && !storeDown && Take(old(store), state.jti, now).None?
      ensures !cleared || storeDown ==> store == old(store)
      ensures cleared && !storeDown ==> store == old(store) - {state.jti}
      ensures result.Ok? <==>
                && Verifies(signed, state, now) && state.provider == provider
                && cookie != "" && cookie == state.nonce && !storeDown
                && Take(old(store), state.jti, now).Some? && Agrees(Take(old(store), state.jti, now).value, state)
      ensures result.Ok? ==>
                && result.value.orgId == state.orgId && result.value.userId == state.userId
                && result.value.codeVerifier == old(store)[state.jti].codeVerifier
    {
      if !Verifies(signed, state, now) {
        return Refused(NotValid), false;
      }
      if state.provider != provider {
        return Refused(WrongPlatform), false;
      }
      if cookie == "" || cookie != state.nonce {
        return Refused(WrongBrowser), false;
      }
      if storeDown {
        return Refused(StoreDown), true;
      }
      var raw := Take(store, state.jti, now);
      store := store - {state.jti};
      if raw.None? {
        return Refused(AlreadyUsed), true;
      }
      if !Agrees(raw.value, state) {
        return Refused(Mismatch), true;
      }
      return Ok(Consumed(raw.value.orgId, raw.value.userId, raw.value.codeVerifier)), true;
    }
  }

  // ---------- Races ----------

  datatype Issued = Issued(claims: Claims, at: int)

  /** One callback that passed every check before the store. */
  datatype Callback = Callback(claims: Claims, cookie: Nonce)

  datatype Success = Success(jti: Jti, cookie: Nonce, provider: Provider, value: Consumed, at: int)

  datatype State = State(
    store: Store,
    issued: seq<Issued>,
    parked: map<Jti, int>,
    callbacks: map<nat, Callback>,
    successes: seq<Success>,
    clock: int)

  datatype Event =
    | Wait(ms: nat)
    | Park(jti: Jti, record: Record)
    | Sign(claims: Claims)
    | Check(callback: nat, provider: Provider, claims: Claims, cookie: Nonce)
    | TakeOnce(callback: nat)
    /** The store took the record but the answer was lost. */
    | TakeLost(callback: nat)

  ghost predicate Init(s: State) {
    s.store == map[] && s.issued == [] && s.parked == map[] && s.callbacks == map[] && s.successes == []
  }

  function SignedBy(issued: seq<Issued>): set<Claims> {
    set i | 0 <= i < |issued| :: issued[i].claims
  }

  ghost predicate Enabled(s: State, e: Event) {
    match e
    case Wait(_) => true
    case Park(jti, record) => jti !in s.parked && record.expiresAt == s.clock + STATE_TTL_MS
    // An issue signs the record it has just parked, and signs it once.
    case Sign(c) =>
      && c.jti in s.parked && c.jti in s.store && Agrees(s.store[c.jti], c)
      && (forall i :: 0 <= i < |s.issued| ==> s.issued[i].claims.jti != c.jti)
    case Check(k, provider, c, cookie) =>
      k !in s.callbacks && Verifies(SignedBy(s.issued), c, s.clock) && c.provider == provider && cookie != "" && cookie == c.nonce
    case TakeOnce(k) => k in s.callbacks
    case TakeLost(k) => k in s.callbacks
  }

  function Next(s: State, e: Event): State {
    match e
    case Wait(ms) => s.(clock := s.clock + ms)
    case Park(jti, record) => s.(store := s.store[jti := record], parked := s.parked[jti := s.clock])
    case Sign(c) => s.(issued := s.issued + [Issued(c, s.clock)])
    case Check(k, _, c, cookie) => s.(callbacks := s.callbacks[k := Callback(c, cookie)])
    case TakeOnce(k) =>
      if k !in s.callbacks then s
      else
        var c := s.callbacks[k].claims;
        var raw := Take(s.store, c.jti, s.clock);
        var after := s.(store := s.store - {c.jti}, callbacks := s.callbacks - {k});
        if raw.Some? && Agrees(raw.value, c) then
          after.(successes := s.successes + [Success(c.jti, s.callbacks[k].cookie, c.provider,
                                                     Consumed(raw.value.orgId, raw.value.userId, raw.value.codeVerifier), s.clock)])
        else after
    case TakeLost(k) =>
      if k in s.callbacks then s.(store := s.store - {s.callbacks[k].claims.jti}, callbacks := s.callbacks - {k}) else s
  }

  ghost predicate Run(s: State, events: seq<Event>, s': State)
    decreases |events|
  {
    if events == [] then s' == s
    else Enabled(s, events[0]) && Run(Next(s, events[0]), events[1..], s')
  }

  /** `x` is the flow that issue `i` began, finished in the browser that began it and before it ran out. */
  ghost predicate Completes(x: Success, i: Issued, parkedAt: int) {
    && x.jti == i.claims.jti
    && x.provider == i.claims.provider
    && x.cookie == i.claims.nonce
    && x.value.orgId == i.claims.orgId && x.value.userId == i.claims.userId
    && parkedAt <= i.at
    && x.at < parkedAt + STATE_TTL_MS
  }

  /** `x` completes some issue. */
  ghost predicate Matched(x: Success, issued: seq<Issued>, parked: map<Jti, int>) {
    x.jti in parked && exists i :: 0 <= i < |issued| && Completes(x, issued[i], parked[x.jti])
  }

  ghost predicate StoreInv(store: Store, parked: map<Jti, int>, clock: int) {
    && (forall j :: j in store ==> j in parked && store[j].expiresAt == parked[j] + STATE_TTL_MS)
    && (forall j :: j in parked ==> parked[j] <= clock)
  }

  ghost predicate IssuedInv(issued: seq<Issued>, parked: map<Jti, int>) {
    && (forall i :: 0 <= i < |issued| ==> issued[i].claims.jti in parked && parked[issued[i].claims.jti] <= issued[i].at)
    && (forall i, j :: 0 <= i < j < |issued| ==> issued[i].claims.jti != issued[j].claims.jti)
  }

  ghost predicate CallbacksInv(callbacks: map<nat, Callback>, issued: seq<Issued>) {
    forall k :: k in callbacks ==> callbacks[k].cookie == callbacks[k].claims.nonce && callbacks[k].claims in SignedBy(issued)
  }

  ghost predicate SuccessesInv(successes: seq<Success>, store: Store, issued: seq<Issued>, parked: map<Jti, int>) {
    && (forall n :: 0 <= n < |successes| ==> successes[n].jti !in store && Matched(successes[n], issued, parked))
    && (forall m, n :: 0 <= m < n < |successes| ==> successes[m].jti != successes[n].jti)
  }

  ghost predicate Inv(s: State) {
    && StoreInv(s.store, s.parked, s.clock)
    && IssuedInv(s.issued, s.parked)
    && CallbacksInv(s.callbacks, s.issued)
    && SuccessesInv(s.successes, s.store, s.issued, s.parked)
  }

  lemma {:induction false} ParkKeepsInv(s: State, jti: Jti, record: Record)
    requires Inv(s) && Enabled(s, Park(jti, record))
    ensures Inv(Next(s, Park(jti, record)))
  {
    var parked := s.parked[jti := s.clock];
    forall n | 0 <= n < |s.successes|
      ensures s.successes[n].jti !in s.store[jti := record] && Matched(s.successes[n], s.issued, parked)
    {
      assert Matched(s.successes[n], s.issued, s.parked);
      var i :| 0 <= i < |s.issued| && Completes(s.successes[n], s.issued[i], s.parked[s.successes[n].jti]);
      assert Completes(s.successes[n], s.issued[i], parked[s.successes[n].jti]);
    }
  }

  lemma {:induction false} MatchedStays(x: Success, issued: seq<Issued>, more: Issued, parked: map<Jti, int>)
    requires Matched(x, issued, parked)
    ensures Matched(x, issued + [more], parked)
  {
    var i :| 0 <= i < |issued| && Completes(x, issued[i], parked[x.jti]);
    assert (issued + [more])[i] == issued[i];
  }

  lemma {:induction false} SignedGrows(issued: seq<Issued>, more: Issued, c: Claims)
    requires c in SignedBy(issued)
    ensures c in SignedBy(issued + [more])
  {
    var i :| 0 <= i < |issued| && issued[i].claims == c;
    assert (issued + [more])[i].claims == c;
  }

  lemma {:induction false} SignKeepsInv(s: State, c: Claims)
    requires Inv(s) && Enabled(s, Sign(c))
    ensures Inv(Next(s, Sign(c)))
  {
    var more := Issued(c, s.clock);
    forall k | k in s.callbacks
      ensures s.callbacks[k].claims in SignedBy(s.issued + [more])
    {
      SignedGrows(s.issued, more, s.callbacks[k].claims);
    }
    forall n | 0 <= n < |s.successes|
      ensures Matched(s.successes[n], s.issued + [more], s.parked)
    {
      MatchedStays(s.successes[n], s.issued, more, s.parked);
    }
    assert IssuedInv(s.issued + [more], s.parked);
  }

  lemma {:induction false} CheckKeepsInv(s: State, k: nat, provider: Provider, c: Claims, cookie: Nonce)
    requires Inv(s) && Enabled(s, Check(k, provider, c, cookie))
    ensures Inv(Next(s, Check(k, provider, c, cookie)))
  {
  }

  /** Taking a record, whatever becomes of it, only ever shrinks the store. */
  lemma {:induction false} DropKeepsInv(s: State, k: nat)
    requires Inv(s) && k in s.callbacks
    ensures Inv(s.(store := s.store - {s.callbacks[k].claims.jti}, callbacks := s.callbacks - {k}))
  {
  }

  lemma {:induction false} SucceedKeepsInv(s: State, x: Success)
    requires Inv(s) && x.jti !in s.store && Matched(x, s.issued, s.parked)
    requires forall n :: 0 <= n < |s.successes| ==> s.successes[n].jti != x.jti
    ensures Inv(s.(successes := s.successes + [x]))
  {
  }

  /** What a callback takes and finds in agreement completes the issue its claims came from. */
  lemma {:induction false} TakenCompletes(s: State, k: nat, raw: Record) returns (x: Success)
    requires Inv(s) && k in s.callbacks
    requires Take(s.store, s.callbacks[k].claims.jti, s.clock) == Some(raw) && Agrees(raw, s.callbacks[k].claims)
    ensures x == Success(s.callbacks[k].claims.jti, s.callbacks[k].cookie, s.callbacks[k].claims.provider,
                         Consumed(raw.orgId, raw.userId, raw.codeVerifier), s.clock)
    ensures Matched(x, s.issued, s.parked)
    ensures forall n :: 0 <= n < |s.successes| ==> s.successes[n].jti != x.jti
  {
    var c := s.callbacks[k].claims;
    x := Success(c.jti, s.callbacks[k].cookie, c.provider, Consumed(raw.orgId, raw.userId, raw.codeVerifier), s.clock);
    assert c in SignedBy(s.issued);
    var i :| 0 <= i < |s.issued| && s.issued[i].claims == c;
    assert Completes(x, s.issued[i], s.parked[x.jti]);
  }

  lemma {:induction false} TakeKeepsInv(s: State, k: nat)
    requires Inv(s) && k in s.callbacks
    ensures Inv(Next(s, TakeOnce(k)))
  {
    var c := s.callbacks[k].claims;
    var raw := Take(s.store, c.jti, s.clock);
    DropKeepsInv(s, k);
    if raw.Some? && Agrees(raw.value, c) {
      var x := TakenCompletes(s, k, raw.value);
      SucceedKeepsInv(s.(store := s.store - {c.jti}, callbacks := s.callbacks - {k}), x);
    }
  }

  lemma {:induction false} InvStep(s: State, e: Event)
    requires Inv(s) && Enabled(s, e)
    ensures Inv(Next(s, e))
  {
    match e
    case Wait(_) =>
    case Park(jti, record) => ParkKeepsInv(s, jti, record);
    case Sign(c) => SignKeepsInv(s, c);
    case Check(k, provider, c, cookie) => CheckKeepsInv(s, k, provider, c, cookie);
    case TakeOnce(k) => TakeKeepsInv(s, k);
    case TakeLost(k) => DropKeepsInv(s, k);
  }

  lemma {:induction false} InvRun(s: State, events: seq<Event>, s': State)
    requires Inv(s) && Run(s, events, s')
    ensures Inv(s')
    decreases |events|
  {
    if events != [] {
      InvStep(s, events[0]);
      InvRun(Next(s, events[0]), events[1..], s');
    }
  }

  /** In every interleaving of issues and callbacks, each state succeeds at most once. */
  lemma {:induction false} EachStateOnce(start: State, events: seq<Event>, s: State)
    requires Init(start) && Run(start, events, s)
    ensures forall m, n :: 0 <= m < n < |s.successes| ==> s.successes[m].jti != s.successes[n].jti
  {
    InvRun(start, events, s);
  }

  /**
   A success returns the workspace and the person of exactly one earlier issue, for the same platform,
   in the browser holding that issue's nonce, and within the state's lifetime.
   */
  lemma {:induction false} SuccessMatchesOneIssue(start: State, events: seq<Event>, s: State, n: nat) returns (i: nat)
    requires Init(start) && Run(start, events, s) && n < |s.successes|
    ensures i < |s.issued| && s.successes[n].jti in s.parked
    ensures Completes(s.successes[n], s.issued[i], s.parked[s.successes[n].jti])
    ensures forall j :: 0 <= j < |s.issued| && s.issued[j].claims.jti == s.successes[n].jti ==> j == i
  {
    InvRun(start, events, s);
    assert Matched(s.successes[n], s.issued, s.parked);
    var k :| 0 <= k < |s.issued| && Completes(s.successes[n], s.issued[k], s.parked[s.successes[n].jti]);
    i := k;
    forall j | 0 <= j < |s.issued| && s.issued[j].claims.jti == s.successes[n].jti
      ensures j == i
    {
      assert s.issued[j].claims.jti == s.issued[i].claims.jti;
    }
  }
}
