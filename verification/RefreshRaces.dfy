/**
 One refresh-token family, statement by statement: a refresh reads the presented token, revokes it and
 creates the next one, and any number of refreshes interleave.
 */
module RefreshRaces {

  type Hash = string

  /** The tokens of the family, with their revocation marks. */
  type Tokens = map<Hash, bool>

  datatype Stage = SawLive | SawRevoked | HasRevoked

  datatype Request = Request(token: Hash, stage: Stage)

  /** `rotated` lists, for each completed refresh, the token it replaced. */
  datatype State = State(tokens: Tokens, requests: map<nat, Request>, rotated: seq<Hash>, seen: set<Hash>)

  datatype Event =
    | Read(r: nat, h: Hash)
    | RevokePresented(r: nat)
    | Create(r: nat, h: Hash)
    /** Reuse was detected: one UPDATE revokes the whole family. */
    | EndFamily(r: nat)
    /** Signing out, a password change, a removal: any tokens are revoked. */
    | RevokeSome(hs: set<Hash>)
    /** A refresh that stops half way. */
    | Fail(r: nat)

  /** A family starts with the one token of a sign-in. */
  ghost predicate Init(s: State) {
    && (exists h :: s.tokens == map[h := false])
    && s.tokens.Keys <= s.seen && s.requests == map[] && s.rotated == []
  }

  predicate Enabled(s: State, e: Event) {
    match e
    case Read(r, h) => r !in s.requests && h in s.tokens
    case RevokePresented(r) => r in s.requests && s.requests[r].stage == SawLive
    case Create(r, h) => r in s.requests && s.requests[r].stage == HasRevoked && h !in s.seen
    case EndFamily(r) => r in s.requests && s.requests[r].stage == SawRevoked
    case RevokeSome(_) => true
    case Fail(r) => r in s.requests
  }

  function Revoke(tokens: Tokens, hs: set<Hash>): Tokens {
    map h | h in tokens :: tokens[h] || h in hs
  }

  function Next(s: State, e: Event): State
    requires Enabled(s, e)
  {
    match e
    case Read(r, h) => s.(requests := s.requests[r := Request(h, if s.tokens[h] then SawRevoked else SawLive)])
    case RevokePresented(r) =>
      s.(tokens := Revoke(s.tokens, {s.requests[r].token}), requests := s.requests[r := s.requests[r].(stage := HasRevoked)])
    case Create(r, h) =>
      s.(tokens := s.tokens[h := false], seen := s.seen + {h}, requests := s.requests - {r}, rotated := s.rotated + [s.requests[r].token])
    case EndFamily(r) => s.(tokens := Revoke(s.tokens, s.tokens.Keys), requests := s.requests - {r})
    case RevokeSome(hs) => s.(tokens := Revoke(s.tokens, hs))
    case Fail(r) => s.(requests := s.requests - {r})
  }

  ghost predicate Run(s: State, events: seq<Event>, s': State)
    decreases |events|
  {
    if events == [] then s' == s
    else Enabled(s, events[0]) && Run(Next(s, events[0]), events[1..], s')
  }

  function LiveTokens(tokens: Tokens): set<Hash> {
    set h | h in tokens && !tokens[h]
  }

  /** The tokens that completed refreshes replaced. */
  function Parents(rotated: seq<Hash>): set<Hash> {
    set i | 0 <= i < |rotated| :: rotated[i]
  }

  ghost predicate Inv(s: State) {
    && s.tokens.Keys <= s.seen
    && |s.tokens| == |s.rotated| + 1
    && (forall h :: h in Parents(s.rotated) ==> h in s.tokens && s.tokens[h])
    && (forall r :: r in s.requests ==> s.requests[r].token in s.tokens)
    && (forall r :: r in s.requests && s.requests[r].stage == HasRevoked ==> s.tokens[s.requests[r].token])
  }

  lemma {:induction false} ParentsGrow(rotated: seq<Hash>, h: Hash)
    ensures Parents(rotated + [h]) == Parents(rotated) + {h}
  {
    var more := rotated + [h];
    assert more[|rotated|] == h;
    forall p | p in Parents(rotated)
      ensures p in Parents(more)
    {
      var i :| 0 <= i < |rotated| && rotated[i] == p;
      assert more[i] == p;
    }
  }

  lemma {:induction false} RevokeKeepsCount(tokens: Tokens, hs: set<Hash>)
    ensures Revoke(tokens, hs).Keys == tokens.Keys && |Revoke(tokens, hs)| == |tokens|
  {
    assert |Revoke(tokens, hs)| == |Revoke(tokens, hs).Keys| && |tokens| == |tokens.Keys|;
  }

  lemma {:induction false} CreateKeepsInv(s: State, r: nat, h: Hash)
    requires Inv(s) && Enabled(s, Create(r, h))
    ensures Inv(Next(s, Create(r, h)))
  {
    ParentsGrow(s.rotated, s.requests[r].token);
    assert |s.tokens[h := false]| == |s.tokens| + 1;
  }

  lemma {:induction false} InvStep(s: State, e: Event)
    requires Inv(s) && Enabled(s, e)
    ensures Inv(Next(s, e))
  {
    match e
    case Create(r, h) => CreateKeepsInv(s, r, h);
    case RevokePresented(r) => RevokeKeepsCount(s.tokens, {s.requests[r].token});
    case EndFamily(_) => RevokeKeepsCount(s.tokens, s.tokens.Keys);
    case RevokeSome(hs) => RevokeKeepsCount(s.tokens, hs);
    case Read(_, _) =>
    case Fail(_) =>
  }

  lemma {:induction false} InvRun(s: State, events: seq<Event>, s': State)
    requires Inv(s) && Run(s, events, s')
    ensures Inv(s')
    decreases |events|
  {
    if events != [] {
      InvStep(s, events[0]);
      InvRun(Next(s, events[0]), events[1..], s');
    }
  }

  lemma {:induction false} InitInv(s: State)
    requires Init(s)
    ensures Inv(s)
  {
    var h :| s.tokens == map[h := false];
    assert s.tokens.Keys == {h} && |s.tokens| == |s.tokens.Keys|;
  }

  // ---------- How many live tokens a family has ----------

  predicate Distinct(hs: seq<Hash>) {
    forall i, j :: 0 <= i < j < |hs| ==> hs[i] != hs[j]
  }

  lemma {:induction false} DistinctCount(hs: seq<Hash>)
    ensures |Parents(hs)| <= |hs|
    ensures |Parents(hs)| == |hs| <==> Distinct(hs)
    decreases |hs|
  {
    if hs != [] {
      var n := |hs| - 1;
      DistinctCount(hs[..n]);
      ParentsGrow(hs[..n], hs[n]);
      assert hs[..n] + [hs[n]] == hs;
      if hs[n] in Parents(hs[..n]) {
        var i :| 0 <= i < n && hs[..n][i] == hs[n];
        assert hs[i] == hs[n];
      }
      assert Distinct(hs) <==> Distinct(hs[..n]) && hs[n] !in Parents(hs[..n]);
    }
  }

  lemma {:induction false} SmallerSet(a: set<Hash>, b: set<Hash>)
    requires a <= b
    ensures |a| <= |b|
  {
    assert b == a + (b - a);
  }

  /** Whatever else revokes tokens: while no two completed refreshes replaced the same token, at most one is live. */
  lemma {:induction false} DistinctRotationsLeaveOne(start: State, events: seq<Event>, s: State)
    requires Init(start) && Run(start, events, s) && Distinct(s.rotated)
    ensures |LiveTokens(s.tokens)| <= 1
  {
    InitInv(start);
    InvRun(start, events, s);
    DistinctCount(s.rotated);
    SmallerSet(LiveTokens(s.tokens), s.tokens.Keys - Parents(s.rotated));
  }

  /** Nothing but refreshes, all of which run to their end. */
  ghost predicate OnlyRefreshes(events: seq<Event>) {
    forall i :: 0 <= i < |events| ==> events[i].Read? || events[i].RevokePresented? || events[i].Create?
  }

  /** Revoked are the tokens replaced, or about to be. */
  ghost predicate RevokedAreRotated(s: State) {
    forall h :: h in s.tokens && s.tokens[h] ==>
      h in Parents(s.rotated) || exists r :: r in s.requests && s.requests[r] == Request(h, HasRevoked)
  }

  lemma {:induction false} RevokedStep(s: State, e: Event)
    requires Inv(s) && Enabled(s, e) && RevokedAreRotated(s)
    requires e.Read? || e.RevokePresented? || e.Create?
    ensures RevokedAreRotated(Next(s, e))
  {
    var s' := Next(s, e);
    if e.Create? {
      ParentsGrow(s.rotated, s.requests[e.r].token);
    }
    forall h | h in s'.tokens && s'.tokens[h] && h !in Parents(s'.rotated)
      ensures exists r :: r in s'.requests && s'.requests[r] == Request(h, HasRevoked)
    {
      if e.RevokePresented? && h == s.requests[e.r].token {
        assert s'.requests[e.r] == Request(h, HasRevoked);
      } else {
        var r :| r in s.requests && s.requests[r] == Request(h, HasRevoked);
        assert r in s'.requests && s'.requests[r] == s.requests[r];
      }
    }
  }

  lemma {:induction false} RevokedRun(s: State, events: seq<Event>, s': State)
    requires Inv(s) && RevokedAreRotated(s) && Run(s, events, s') && OnlyRefreshes(events)
    ensures RevokedAreRotated(s')
    decreases |events|
  {
    if events != [] {
      RevokedStep(s, events[0]);
      InvStep(s, events[0]);
      RevokedRun(Next(s, events[0]), events[1..], s');
    }
  }

  /**
   In every interleaving of refreshes alone, once none is under way: the live tokens are one more than
   the refreshes completed, less the tokens they replaced.  So a family has one live token exactly when
   no two refreshes that completed had read the same token before either revoked it.
   */
  lemma {:induction false} LiveTokensCount(start: State, events: seq<Event>, s: State)
    requires Init(start) && Run(start, events, s) && OnlyRefreshes(events)
    requires forall r :: r in s.requests ==> s.requests[r].stage != HasRevoked
    ensures |LiveTokens(s.tokens)| == 1 + |s.rotated| - |Parents(s.rotated)|
    ensures |LiveTokens(s.tokens)| == 1 <==> Distinct(s.rotated)
  {
    InitInv(start);
    InvRun(start, events, s);
    RevokedRun(start, events, s);
    DistinctCount(s.rotated);
    assert LiveTokens(s.tokens) == s.tokens.Keys - Parents(s.rotated);
  }

  // ---------- Two refreshes of one token ----------

  lemma {:induction false} FirstStep(s: State, e: Event, events: seq<Event>, s': State)
    requires Enabled(s, e) && Run(Next(s, e), events, s')
    ensures Run(s, [e] + events, s')
  {
    assert ([e] + events)[1..] == events;
  }

  lemma {:induction false} NoneLeft(tokens: Tokens, h: Hash)
    requires LiveTokens(tokens) == {h}
    ensures LiveTokens(Revoke(Revoke(tokens, {h}), {h})) == {}
  {
    var once := Revoke(tokens, {h});
    forall x | x in once
      ensures once[x]
    {
      if !tokens[x] {
        assert x in LiveTokens(tokens);
        assert x == h;
      }
    }
  }

  /** A token read twice while live can leave two live tokens, and nothing has looked like reuse. */
  lemma {:induction false} OverlappingRefreshesFork(s: State, h: Hash, a: Hash, b: Hash) returns (events: seq<Event>, s': State)
    requires s.requests == map[] && LiveTokens(s.tokens) == {h}
    requires a != b && a !in s.seen && b !in s.seen && s.tokens.Keys <= s.seen
    ensures Run(s, events, s') && LiveTokens(s'.tokens) == {a, b} && s'.requests == map[]
  {
    assert h in LiveTokens(s.tokens);
    var s1 := Next(s, Read(0, h));
    var s2 := Next(s1, Read(1, h));
    var s3 := Next(s2, RevokePresented(0));
    var s4 := Next(s3, RevokePresented(1));
    var s5 := Next(s4, Create(0, a));
    s' := Next(s5, Create(1, b));
    assert Run(s', [], s');
    FirstStep(s5, Create(1, b), [], s');
    events := [Create(1, b)] + [];
    FirstStep(s4, Create(0, a), events, s');
    events := [Create(0, a)] + events;
    FirstStep(s3, RevokePresented(1), events, s');
    events := [RevokePresented(1)] + events;
    FirstStep(s2, RevokePresented(0), events, s');
    events := [RevokePresented(0)] + events;
    FirstStep(s1, Read(1, h), events, s');
    events := [Read(1, h)] + events;
    FirstStep(s, Read(0, h), events, s');
    events := [Read(0, h)] + events;
    var revoked := Revoke(Revoke(s.tokens, {h}), {h});
    assert s'.tokens == revoked[a := false][b := false];
    NoneLeft(s.tokens, h);
    assert forall x :: x in revoked && !revoked[x] ==> x in LiveTokens(revoked);
    assert LiveTokens(s'.tokens) == {a, b};
  }

  // ---------- Reuse detection against a refresh under way ----------

  ghost predicate AllRevoked(tokens: Tokens) {
    forall h :: h in tokens ==> tokens[h]
  }

  /** No refresh has read a live token and not finished. */
  ghost predicate NoneUnderWay(s: State) {
    forall r :: r in s.requests ==> s.requests[r].stage == SawRevoked
  }

  lemma {:induction false} DeadStep(s: State, e: Event)
    requires Enabled(s, e) && AllRevoked(s.tokens) && NoneUnderWay(s)
    ensures AllRevoked(Next(s, e).tokens) && NoneUnderWay(Next(s, e))
  {
  }

  lemma {:induction false} DeadStays(s: State, events: seq<Event>, s': State)
    requires Run(s, events, s') && AllRevoked(s.tokens) && NoneUnderWay(s)
    ensures AllRevoked(s'.tokens)
    decreases |events|
  {
    if events != [] {
      DeadStep(s, events[0]);
      DeadStays(Next(s, events[0]), events[1..], s');
    }
  }

  ghost predicate NeverLiveAgain(s: State) {
    forall events, s' :: Run(s, events, s') ==> AllRevoked(s'.tokens)
  }

  /** Presenting a revoked token ends the family for good exactly when no refresh was under way at that moment. */
  lemma {:induction false} ReuseEndsFamilyIff(s: State, r: nat, unused: Hash)
    requires Enabled(s, EndFamily(r)) && unused !in s.seen
    ensures NeverLiveAgain(Next(s, EndFamily(r))) <==> NoneUnderWay(s)
  {
    var ended := Next(s, EndFamily(r));
    if NoneUnderWay(s) {
      forall events, s' | Run(ended, events, s')
        ensures AllRevoked(s'.tokens)
      {
        DeadStays(ended, events, s');
      }
    } else {
      var q :| q in s.requests && s.requests[q].stage != SawRevoked;
      var mid := if ended.requests[q].stage == SawLive then Next(ended, RevokePresented(q)) else ended;
      var s' := Next(mid, Create(q, unused));
      assert Run(s', [], s');
      FirstStep(mid, Create(q, unused), [], s');
      var events := [Create(q, unused)] + [];
      if mid != ended {
        FirstStep(ended, RevokePresented(q), events, s');
        events := [RevokePresented(q)] + events;
      }
      assert Run(ended, events, s') && unused in s'.tokens && !s'.tokens[unused];
    }
  }
}
