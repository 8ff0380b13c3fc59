/**
 Outbound calls: bounded retries behind a circuit breaker per upstream, which opens after five
 consecutive failed calls and fails fast for 30 seconds.
 */
module HttpClient {
  import opened Wrappers

  const FAILURE_THRESHOLD: nat := 5
  const OPEN_MS: int := 30_000

  datatype Breaker = Breaker(failures: nat, openedAt: Option<int>)

  const CLOSED := Breaker(0, None)

  /** What one fetch comes to: a response, or an exception such as the deadline. */
  datatype Reply = Response(status: nat) | Threw

  datatype Result = Returned(status: nat) | Unavailable

  predicate Good(reply: Reply) {
    reply.Response? && reply.status < 500
  }

  predicate FailsFast(b: Breaker, now: int) {
    b.openedAt.Some? && now - b.openedAt.value < OPEN_MS
  }

  /** A call that gets past the check clears the mark: half-open. */
  function Entered(b: Breaker): Breaker {
    b.(openedAt := None)
  }

  function Failed(b: Breaker, now: int): Breaker {
    var failures := b.failures + 1;
    Breaker(failures, if failures >= FAILURE_THRESHOLD && b.openedAt.None? then Some(now) else b.openedAt)
  }

  function Succeeded(b: Breaker): Breaker {
    b.(failures := 0)
  }

  /** The attempt that decides a call: the first good one, or the last allowed one. */
  function Deciding(replies: seq<Reply>, retries: nat, attempt: nat): (last: nat)
    requires |replies| == retries + 1 && attempt <= retries
    ensures attempt <= last <= retries
    ensures last == retries || Good(replies[last])
    ensures forall i :: attempt <= i < last ==> !Good(replies[i])
    decreases retries - attempt
  {
    if attempt == retries || Good(replies[attempt]) then attempt else Deciding(replies, retries, attempt + 1)
  }

  /** A whole call that starts at `now` and ends at `end`, on its own. */
  function AfterCall(b: Breaker, retries: nat, replies: seq<Reply>, now: int, end: int): Breaker
    requires |replies| == retries + 1
  {
    if FailsFast(b, now) then b
    else if Good(replies[Deciding(replies, retries, 0)]) then Succeeded(Entered(b))
    else Failed(Entered(b), end)
  }

  class HttpClients {
    var breakers: map<string, Breaker>
    /** The open-circuit gauge, per upstream. */
    var gauge: map<string, int>

    constructor ()
      ensures breakers == map[] && gauge == map[]
    {
      breakers, gauge := map[], map[];
    }

    function BreakerOf(upstream: string): Breaker
      reads this
    {
      if upstream in breakers then breakers[upstream] else CLOSED
    }

    function GaugeOf(upstream: string): int
      reads this
    {
      if upstream in gauge then gauge[upstream] else 0
    }

    method RecordFailure(upstream: string, now: int)
      modifies this
      ensures BreakerOf(upstream) == Failed(old(BreakerOf(upstream)), now)
      ensures GaugeOf(upstream) == old(GaugeOf(upstream)) +
                (if BreakerOf(upstream).openedAt.Some? && old(BreakerOf(upstream)).openedAt.None? then 1 else 0)
      ensures forall u :: u != upstream ==> BreakerOf(u) == old(BreakerOf(u)) && GaugeOf(u) == old(GaugeOf(u))
    {
      var state := BreakerOf(upstream);
      state := state.(failures := state.failures + 1);
      if state.failures >= FAILURE_THRESHOLD && state.openedAt.None? {
        state := state.(openedAt := Some(now));
        gauge := gauge[upstream := GaugeOf(upstream) + 1];
      }
      breakers := breakers[upstream := state];
    }

    /** `replies[i]` is what fetch `i` would come to; `end` is when the call is over. */
    method HttpRequest(upstream: string, retries: nat, replies: seq<Reply>, now: int, end: int) returns (result: Result, fetches: nat)
      requires |replies| == retries + 1
      modifies this
      ensures BreakerOf(upstream) == AfterCall(old(BreakerOf(upstream)), retries, replies, now, end)
      ensures forall u :: u != upstream ==> BreakerOf(u) == old(BreakerOf(u)) && GaugeOf(u) == old(GaugeOf(u))
      ensures old(GaugeOf(upstream) == (if BreakerOf(upstream).openedAt.Some? then 1 else 0)) ==>
                GaugeOf(upstream) == (if BreakerOf(upstream).openedAt.Some? then 1 else 0)
      ensures fetches == if FailsFast(old(BreakerOf(upstream)), now) then 0 else Deciding(replies, retries, 0) + 1
      ensures result == if fetches > 0 && replies[fetches - 1].Response? then Returned(replies[fetches - 1].status) else Unavailable
    {
      var state := BreakerOf(upstream);
      breakers := breakers[upstream := state];
      if state.openedAt.Some? {
        if now - state.openedAt.value < OPEN_MS {
          return Unavailable, 0;
        }
        state := state.(openedAt := None);
        breakers := breakers[upstream := state];
        gauge := gauge[upstream := GaugeOf(upstream) - 1];
      }
      label entered:
      fetches := 0;
      while fetches <= retries
        invariant fetches <= retries + 1
        invariant forall i :: 0 <= i < fetches ==> !Good(replies[i])
        invariant fetches == retries + 1 ==> replies[retries].Threw?
        invariant breakers == old@entered(breakers) && gauge == old@entered(gauge)
      {
        var reply := replies[fetches];
        fetches := fetches + 1;
        if reply.Response? {
          if reply.status >= 500 && fetches <= retries {
            continue;
          }
          if reply.status < 500 {
            breakers := breakers[upstream := BreakerOf(upstream).(failures := 0)];
          } else {
            RecordFailure(upstream, end);
          }
          return Returned(reply.status), fetches;
        }
      }
      RecordFailure(upstream, end);
      return Unavailable, fetches;
    }
  }

  // ---------- Interleaved calls to one upstream ----------

  /** A call between its check and its outcome; `attempt` fetches have already come to nothing. */
  datatype Call = Call(retries: nat, attempt: nat)

  /** The books on one call: fetches begun, and outcomes recorded. */
  datatype Tally = Tally(retries: nat, fetches: nat, outcomes: nat)

  datatype State = State(
    breaker: Breaker,
    gauge: int,
    calls: map<nat, Call>,
    tallies: map<nat, Tally>,
    recorded: seq<bool>,
    clock: int)

  datatype Event =
    | Wait(ms: nat)
    | Start(id: nat, retries: nat)
    | Settle(id: nat, reply: Reply)

  ghost predicate Init(s: State) {
    s.breaker == CLOSED && s.gauge == 0 && s.calls == map[] && s.tallies == map[] && s.recorded == []
  }

  ghost predicate Enabled(s: State, e: Event) {
    match e
    case Wait(_) => true
    case Start(id, _) => id !in s.tallies
    case Settle(id, _) => id in s.calls && id in s.tallies
  }

  function Next(s: State, e: Event): State {
    match e
    case Wait(ms) => s.(clock := s.clock + ms)
    case Start(id, retries) =>
      if FailsFast(s.breaker, s.clock) then s.(tallies := s.tallies[id := Tally(retries, 0, 0)])
      else
        s.(breaker := Entered(s.breaker),
           gauge := if s.breaker.openedAt.Some? then s.gauge - 1 else s.gauge,
           calls := s.calls[id := Call(retries, 0)],
           tallies := s.tallies[id := Tally(retries, 1, 0)])
    case Settle(id, reply) =>
      if id !in s.calls || id !in s.tallies then s
      else
        var c, t := s.calls[id], s.tallies[id];
        if !Good(reply) && c.attempt < c.retries then
          s.(calls := s.calls[id := c.(attempt := c.attempt + 1)],
             tallies := s.tallies[id := t.(fetches := t.fetches + 1)])
        else
          var after := s.(calls := s.calls - {id}, tallies := s.tallies[id := t.(outcomes := t.outcomes + 1)],
                          recorded := s.recorded + [Good(reply)]);
          if Good(reply) then after.(breaker := Succeeded(s.breaker))
          else
            var b := Failed(s.breaker, s.clock);
            after.(breaker := b, gauge := if b.openedAt.Some? && s.breaker.openedAt.None? then s.gauge + 1 else s.gauge)
  }

  ghost predicate Run(s: State, events: seq<Event>, s': State)
    decreases |events|
  {
    if events == [] then s' == s
    else Enabled(s, events[0]) && Run(Next(s, events[0]), events[1..], s')
  }

  /** Failures recorded since the last success. */
  function TrailingFailures(recorded: seq<bool>): nat {
    if recorded == [] || recorded[|recorded| - 1] then 0 else TrailingFailures(recorded[..|recorded| - 1]) + 1
  }

  lemma {:induction false} TrailingAreFailures(recorded: seq<bool>)
    ensures TrailingFailures(recorded) <= |recorded|
    ensures forall i :: |recorded| - TrailingFailures(recorded) <= i < |recorded| ==> !recorded[i]
    decreases |recorded|
  {
    if recorded != [] && !recorded[|recorded| - 1] {
      TrailingAreFailures(recorded[..|recorded| - 1]);
    }
  }

  /** A call under way has begun one fetch per attempt and recorded nothing yet. */
  predicate UnderWay(c: Call, t: Tally) {
    t.outcomes == 0 && c.retries == t.retries && c.attempt <= t.retries && t.fetches == c.attempt + 1
  }

  predicate Over(t: Tally) {
    t.fetches <= t.retries + 1 && t.outcomes == (if t.fetches == 0 then 0 else 1)
  }

  ghost predicate TalliesInv(calls: map<nat, Call>, tallies: map<nat, Tally>) {
    && calls.Keys <= tallies.Keys
    && forall id :: id in tallies ==> if id in calls then UnderWay(calls[id], tallies[id]) else Over(tallies[id])
  }

  ghost predicate BreakerInv(b: Breaker, gauge: int, recorded: seq<bool>) {
    gauge == (if b.openedAt.Some? then 1 else 0) && b.failures == TrailingFailures(recorded)
  }

  ghost predicate Inv(s: State) {
    BreakerInv(s.breaker, s.gauge, s.recorded) && TalliesInv(s.calls, s.tallies)
  }

  lemma {:induction false} RecordKeepsTrailing(recorded: seq<bool>, good: bool)
    ensures TrailingFailures(recorded + [good]) == if good then 0 else TrailingFailures(recorded) + 1
  {
    assert (recorded + [good])[..|recorded|] == recorded;
  }

  lemma {:induction false} SettleKeepsTallies(s: State, id: nat, reply: Reply)
    requires Inv(s) && Enabled(s, Settle(id, reply))
    ensures TalliesInv(Next(s, Settle(id, reply)).calls, Next(s, Settle(id, reply)).tallies)
  {
    assert UnderWay(s.calls[id], s.tallies[id]);
  }

  lemma {:induction false} FailedKeepsBreaker(b: Breaker, gauge: int, recorded: seq<bool>, now: int)
    requires BreakerInv(b, gauge, recorded)
    ensures BreakerInv(Failed(b, now), if Failed(b, now).openedAt.Some? && b.openedAt.None? then gauge + 1 else gauge, recorded + [false])
  {
    RecordKeepsTrailing(recorded, false);
  }

  lemma {:induction false} SucceededKeepsBreaker(b: Breaker, gauge: int, recorded: seq<bool>)
    requires BreakerInv(b, gauge, recorded)
    ensures BreakerInv(Succeeded(b), gauge, recorded + [true])
  {
    RecordKeepsTrailing(recorded, true);
  }

  lemma {:induction false} SettleKeepsBreaker(s: State, id: nat, reply: Reply)
    requires Inv(s) && Enabled(s, Settle(id, reply))
    ensures var s' := Next(s, Settle(id, reply)); BreakerInv(s'.breaker, s'.gauge, s'.recorded)
  {
    if Good(reply) {
      SucceededKeepsBreaker(s.breaker, s.gauge, s.recorded);
    } else {
      FailedKeepsBreaker(s.breaker, s.gauge, s.recorded, s.clock);
    }
  }

  lemma {:induction false} StartKeepsInv(s: State, id: nat, retries: nat)
    requires Inv(s) && Enabled(s, Start(id, retries))
    ensures Inv(Next(s, Start(id, retries)))
  {
    var s' := Next(s, Start(id, retries));
    assert id !in s.calls;
    if id in s'.calls {
      assert UnderWay(s'.calls[id], s'.tallies[id]);
    } else {
      assert Over(s'.tallies[id]);
    }
  }

  lemma {:induction false} InvStep(s: State, e: Event)
    requires Inv(s) && Enabled(s, e)
    ensures Inv(Next(s, e))
  {
    match e
    case Wait(_) =>
    case Start(id, retries) => StartKeepsInv(s, id, retries);
    case Settle(id, reply) =>
      SettleKeepsTallies(s, id, reply);
      SettleKeepsBreaker(s, id, reply);
  }

  lemma {:induction false} InvRun(s: State, events: seq<Event>, s': State)
    requires Inv(s) && Run(s, events, s')
    ensures Inv(s')
    decreases |events|
  {
    if events != [] {
      InvStep(s, events[0]);
      InvRun(Next(s, events[0]), events[1..], s');
    }
  }

  /** In every interleaving the gauge reads 1 exactly while the circuit is open. */
  lemma GaugeReadsOpen(start: State, events: seq<Event>, s: State)
    requires Init(start) && Run(start, events, s)
    ensures s.gauge == (if s.breaker.openedAt.Some? then 1 else 0)
  {
    InvRun(start, events, s);
  }

  /** Each call makes at most retries + 1 fetches, and one that fetched at all records exactly one outcome when over. */
  lemma EveryCallTallies(start: State, events: seq<Event>, s: State, id: nat)
    requires Init(start) && Run(start, events, s) && id in s.tallies
    ensures s.tallies[id].fetches <= s.tallies[id].retries + 1
    ensures s.tallies[id].outcomes == (if s.tallies[id].fetches == 0 || id in s.calls then 0 else 1)
  {
    InvRun(start, events, s);
  }

  /** An open circuit stays open, with the same mark, until its time is up. */
  lemma {:induction false} StaysOpen(s: State, events: seq<Event>, s': State, since: int)
    requires s.breaker.openedAt == Some(since)
    requires Run(s, events, s') && s'.clock < since + OPEN_MS
    ensures s'.breaker.openedAt == Some(since)
    ensures s.clock <= s'.clock
    decreases |events|
  {
    if events != [] {
      ClockAdvances(Next(s, events[0]), events[1..], s');
      StaysOpen(Next(s, events[0]), events[1..], s', since);
    }
  }

  lemma {:induction false} ClockAdvances(s: State, events: seq<Event>, s': State)
    requires Run(s, events, s')
    ensures s.clock <= s'.clock
    decreases |events|
  {
    if events != [] {
      ClockAdvances(Next(s, events[0]), events[1..], s');
    }
  }

  /** No call that starts within 30 seconds of the circuit opening ever fetches. */
  lemma NoFetchWhileOpen(s: State, id: nat, reply: Reply, events: seq<Event>, s': State, late: nat, retries: nat)
    requires Enabled(s, Settle(id, reply))
    requires s.breaker.openedAt.None? && Next(s, Settle(id, reply)).breaker.openedAt.Some?
    requires Run(Next(s, Settle(id, reply)), events, s') && s'.clock < s.clock + OPEN_MS
    ensures Next(s', Start(late, retries)).calls == s'.calls
    ensures Next(s', Start(late, retries)).tallies == s'.tallies[late := Tally(retries, 0, 0)]
  {
    StaysOpen(Next(s, Settle(id, reply)), events, s', s.clock);
  }

  /** The circuit opens only on a failure that makes at least five in a row with no success between. */
  lemma OpeningNeedsFive(start: State, events: seq<Event>, s: State, e: Event)
    requires Init(start) && Run(start, events, s) && Enabled(s, e)
    requires s.breaker.openedAt.None? && Next(s, e).breaker.openedAt.Some?
    ensures var recorded := Next(s, e).recorded;
            |recorded| >= 5 && forall i :: |recorded| - 5 <= i < |recorded| ==> !recorded[i]
  {
    InvRun(start, events, s);
    InvStep(s, e);
    TrailingAreFailures(Next(s, e).recorded);
  }

  // ---------- Half open ----------

  /** The state a run of events leads to. */
  function StateAfter(s: State, events: seq<Event>): State
    decreases |events|
  {
    if events == [] then s else Next(StateAfter(s, events[..|events| - 1]), events[|events| - 1])
  }

  /** Every event of the list is enabled when its turn comes. */
  ghost predicate Follows(s: State, events: seq<Event>) {
    forall i :: 0 <= i < |events| ==> Enabled(StateAfter(s, events[..i]), events[i])
  }

  lemma {:induction false} FollowsInit(s: State, events: seq<Event>)
    requires Follows(s, events) && events != []
    ensures Follows(s, events[..|events| - 1])
    ensures Enabled(StateAfter(s, events[..|events| - 1]), events[|events| - 1])
  {
    var init := events[..|events| - 1];
    forall i | 0 <= i < |init|
      ensures Enabled(StateAfter(s, init[..i]), init[i])
    {
      assert init[..i] == events[..i];
    }
  }

  lemma {:induction false} RunOneMore(s: State, events: seq<Event>, mid: State, e: Event)
    requires Run(s, events, mid) && Enabled(mid, e)
    ensures Run(s, events + [e], Next(mid, e))
    decreases |events|
  {
    if events == [] {
      assert [] + [e] == [e] && [e][1..] == [];
    } else {
      assert (events + [e])[1..] == events[1..] + [e];
      RunOneMore(Next(s, events[0]), events[1..], mid, e);
    }
  }

  lemma {:induction false} FollowsIsRun(s: State, events: seq<Event>)
    requires Follows(s, events)
    ensures Run(s, events, StateAfter(s, events))
    decreases |events|
  {
    if events != [] {
      var init := events[..|events| - 1];
      FollowsInit(s, events);
      FollowsIsRun(s, init);
      RunOneMore(s, init, StateAfter(s, init), events[|events| - 1]);
      assert init + [events[|events| - 1]] == events;
    }
  }

  /** Event `i` is the failure that opens the circuit. */
  predicate Opens(s: State, events: seq<Event>, i: nat)
    requires i < |events|
  {
    var before := StateAfter(s, events[..i]);
    before.breaker.openedAt.None? && Next(before, events[i]).breaker.openedAt.Some?
  }

  ghost predicate OpenedWithin(s: State, events: seq<Event>, i: int) {
    && 0 <= i < |events| && Opens(s, events, i)
    && StateAfter(s, events).clock < StateAfter(s, events[..i]).clock + OPEN_MS
  }

  /** A mark not there at the start was set by some event, at that event's moment. */
  lemma {:induction false} MarkHasOpener(s: State, events: seq<Event>) returns (i: int)
    requires Follows(s, events)
    requires StateAfter(s, events).breaker.openedAt.Some?
    requires StateAfter(s, events).breaker.openedAt != s.breaker.openedAt
    ensures 0 <= i < |events| && Opens(s, events, i)
    ensures StateAfter(s, events).breaker.openedAt == Some(StateAfter(s, events[..i]).clock)
    decreases |events|
  {
    var n := |events| - 1;
    var init := events[..n];
    var before := StateAfter(s, init);
    if before.breaker.openedAt == StateAfter(s, events).breaker.openedAt {
      FollowsInit(s, events);
      i := MarkHasOpener(s, init);
      assert init[..i] == events[..i];
    } else {
      i := n;
    }
  }

  /** What opens the circuit keeps it open for its time. */
  lemma {:induction false} OpenerHolds(s: State, events: seq<Event>, i: nat)
    requires Follows(s, events) && i < |events| && Opens(s, events, i)
    requires StateAfter(s, events).clock < StateAfter(s, events[..i]).clock + OPEN_MS
    ensures StateAfter(s, events).breaker.openedAt == Some(StateAfter(s, events[..i]).clock)
    ensures StateAfter(s, events[..i]).clock <= StateAfter(s, events).clock
    decreases |events|
  {
    var n := |events| - 1;
    if i < n {
      var init := events[..n];
      FollowsInit(s, events);
      assert init[..i] == events[..i];
      ClockStep(StateAfter(s, init), events[n]);
      OpenerHolds(s, init, i);
      MarkStays(StateAfter(s, init), events[n]);
    }
  }

  lemma {:induction false} ClockStep(s: State, e: Event)
    ensures s.clock <= Next(s, e).clock
  {
  }

  lemma {:induction false} MarkStays(s: State, e: Event)
    requires FailsFast(s.breaker, Next(s, e).clock)
    ensures Next(s, e).breaker.openedAt == s.breaker.openedAt
  {
  }

  lemma {:induction false} ClockNeverFalls(s: State, events: seq<Event>)
    ensures s.clock <= StateAfter(s, events).clock
    decreases |events|
  {
    if events != [] {
      ClockNeverFalls(s, events[..|events| - 1]);
    }
  }

  /**
   Half open, for any run from a state in which calls are let through, such as one whose 30 seconds
   are up: a later call fetches exactly when no failure has opened the circuit again within the last
   30 seconds.  So the first call is the only one to get through if and only if its failure, or
   another's, comes before the next call starts.
   */
  lemma {:induction false} FetchesUnlessReopened(s: State, events: seq<Event>, late: nat, retries: nat)
    requires !FailsFast(s.breaker, s.clock) && Follows(s, events)
    requires Enabled(StateAfter(s, events), Start(late, retries))
    requires late !in StateAfter(s, events).calls
    ensures late in Next(StateAfter(s, events), Start(late, retries)).calls <==> !exists i :: OpenedWithin(s, events, i)
  {
    var end := StateAfter(s, events);
    if i :| OpenedWithin(s, events, i) {
      OpenerHolds(s, events, i);
    }
    ClockNeverFalls(s, events);
    if FailsFast(end.breaker, end.clock) {
      var i := MarkHasOpener(s, events);
      assert OpenedWithin(s, events, i);
    }
  }

  /** The plainest such run: two calls that start together once the time is up both fetch. */
  lemma SecondProbeEnters(s: State, first: nat, second: nat, retries: nat)
    requires first != second && first !in s.tallies && second !in s.tallies
    requires s.breaker.openedAt.Some? && !FailsFast(s.breaker, s.clock)
    ensures var s' := Next(Next(s, Start(first, retries)), Start(second, retries));
            first in s'.calls && second in s'.calls && s'.breaker.openedAt.None?
  {
  }

  /**
   In every interleaving a failure, of a probe or of any other call, opens a circuit that is not open
   exactly when at least four failures have been recorded since the last success.
   */
  lemma {:induction false} FailureOpensIff(start: State, events: seq<Event>, s: State, id: nat, reply: Reply)
    requires Init(start) && Run(start, events, s) && Enabled(s, Settle(id, reply))
    requires s.breaker.openedAt.None? && !Good(reply) && s.calls[id].attempt == s.calls[id].retries
    ensures Next(s, Settle(id, reply)).breaker.openedAt.Some? <==> TrailingFailures(s.recorded) >= 4
  {
    InvRun(start, events, s);
    assert UnderWay(s.calls[id], s.tallies[id]);
  }

  /**
   So a success that arrives while the circuit is open disarms the next probe: after the 30 seconds a
   lone failing probe, overlapping no other call, leaves the circuit closed.
   */
  lemma {:induction false} LateSuccessDisarmsProbe(start: State, events: seq<Event>, s: State, id: nat, wait: nat, probe: nat) returns (s': State)
    requires Init(start) && Run(start, events, s)
    requires id in s.calls && s.breaker.openedAt.Some?
    requires s.breaker.openedAt.value + OPEN_MS <= s.clock + wait && probe !in s.tallies
    ensures Run(s, [Settle(id, Response(200)), Wait(wait), Start(probe, 0), Settle(probe, Threw)], s')
    ensures s'.breaker == Breaker(1, None)
  {
    InvRun(start, events, s);
    assert id in s.tallies;
    var s1 := Next(s, Settle(id, Response(200)));
    var s2 := Next(s1, Wait(wait));
    var s3 := Next(s2, Start(probe, 0));
    s' := Next(s3, Settle(probe, Threw));
    FourSteps(s, Settle(id, Response(200)), Wait(wait), Start(probe, 0), Settle(probe, Threw));
  }

  lemma {:induction false} TwoSteps(s: State, e1: Event, e2: Event, rest: seq<Event>, s': State)
    requires Enabled(s, e1) && Enabled(Next(s, e1), e2) && Run(Next(Next(s, e1), e2), rest, s')
    ensures Run(s, [e1, e2] + rest, s')
  {
    var all, later := [e1, e2] + rest, [e2] + rest;
    assert later[1..] == rest;
    assert Run(Next(s, e1), later, s');
    assert all[1..] == later;
  }

  lemma {:induction false} FourSteps(s: State, e1: Event, e2: Event, e3: Event, e4: Event)
    requires Enabled(s, e1) && Enabled(Next(s, e1), e2)
    requires Enabled(Next(Next(s, e1), e2), e3) && Enabled(Next(Next(Next(s, e1), e2), e3), e4)
    ensures Run(s, [e1, e2, e3, e4], Next(Next(Next(Next(s, e1), e2), e3), e4))
  {
    var s4 := Next(Next(Next(Next(s, e1), e2), e3), e4);
    TwoSteps(Next(Next(s, e1), e2), e3, e4, [], s4);
    assert [e3, e4] + [] == [e3, e4];
    TwoSteps(s, e1, e2, [e3, e4], s4);
    assert [e1, e2] + [e3, e4] == [e1, e2, e3, e4];
  }

  /** `n` calls without retries start, one after the other. */
  lemma {:induction false} StartMany(s: State, n: nat) returns (events: seq<Event>, s': State)
    requires Init(s)
    ensures Run(s, events, s')
    ensures s'.breaker == CLOSED
    ensures forall i: nat :: (i in s'.calls <==> i < n) && (i in s'.tallies <==> i < n)
    ensures forall i: nat :: i < n ==> s'.calls[i] == Call(0, 0)
  {
    if n == 0 {
      events, s' := [], s;
    } else {
      var before, mid := StartMany(s, n - 1);
      events, s' := before + [Start(n - 1, 0)], Next(mid, Start(n - 1, 0));
      RunOneMore(s, before, mid, Start(n - 1, 0));
    }
  }

  /** The first `n` of six calls fail. */
  lemma {:induction false} FailMany(s: State, n: nat) returns (events: seq<Event>, s': State)
    requires Init(s) && n <= 5
    ensures Run(s, events, s')
    ensures forall i: nat :: (i in s'.calls <==> n <= i < 6) && (i in s'.tallies <==> i < 6)
    ensures forall i: nat :: n <= i < 6 ==> s'.calls[i] == Call(0, 0)
    ensures s'.breaker.failures == n && (s'.breaker.openedAt.Some? <==> n == 5)
    ensures n == 5 ==> s'.breaker.openedAt == Some(s'.clock)
    decreases n
  {
    if n == 0 {
      events, s' := StartMany(s, 6);
    } else {
      var before, mid := FailMany(s, n - 1);
      events, s' := before + [Settle(n - 1, Threw)], Next(mid, Settle(n - 1, Threw));
      RunOneMore(s, before, mid, Settle(n - 1, Threw));
    }
  }

  /** It happens: five of six calls fail and open the circuit, the sixth succeeds, and the probe changes nothing. */
  lemma {:induction false} LateSuccessRun(start: State) returns (events: seq<Event>, s: State, s': State)
    requires Init(start)
    ensures Run(start, events, s) && s.breaker == Breaker(5, Some(s.clock)) && s.calls.Keys == {5}
    ensures Run(s, [Settle(5, Response(200)), Wait(30_000), Start(6, 0), Settle(6, Threw)], s')
    ensures s'.breaker.openedAt.None?
  {
    events, s := FailMany(start, 5);
    assert s.calls.Keys == {5};
    s' := LateSuccessDisarmsProbe(start, events, s, 5, 30_000, 6);
  }

  // ---------- Serialised calls ----------

  datatype Whole = Whole(retries: nat, replies: seq<Reply>, start: int, end: int)

  ghost predicate Serial(calls: seq<Whole>) {
    forall i :: 0 <= i < |calls| ==> |calls[i].replies| == calls[i].retries + 1
  }

  function AfterAll(b: Breaker, calls: seq<Whole>): Breaker
    requires Serial(calls)
    decreases |calls|
  {
    if calls == [] then b
    else
      var c := calls[|calls| - 1];
      AfterCall(AfterAll(b, calls[..|calls| - 1]), c.retries, c.replies, c.start, c.end)
  }

  lemma {:induction false} OpenMeansFive(calls: seq<Whole>)
    requires Serial(calls)
    ensures AfterAll(CLOSED, calls).openedAt.Some? ==> AfterAll(CLOSED, calls).failures >= FAILURE_THRESHOLD
    decreases |calls|
  {
    if calls != [] {
      OpenMeansFive(calls[..|calls| - 1]);
    }
  }

  /** With serialised calls, a failed half-open probe opens the circuit again at once. */
  lemma FailedProbeReopens(calls: seq<Whole>, probe: Whole)
    requires Serial(calls) && |probe.replies| == probe.retries + 1
    requires AfterAll(CLOSED, calls).openedAt.Some?
    requires !FailsFast(AfterAll(CLOSED, calls), probe.start)
    requires forall i :: 0 <= i <= probe.retries ==> !Good(probe.replies[i])
    ensures AfterCall(AfterAll(CLOSED, calls), probe.retries, probe.replies, probe.start, probe.end).openedAt == Some(probe.end)
  {
    OpenMeansFive(calls);
  }
}
