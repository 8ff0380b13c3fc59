/**
 Failed sign-ins make the next attempt wait.  Two expiring counters are kept for each failure, one
 for the account and one for the address it came from; from the sixth failure on the wait doubles
 each time, up to 15 minutes, and a success clears the account's counter only.
 */
module LoginBackoff {
  import opened Arithmetic
  import opened Wrappers

  const FREE_ATTEMPTS: nat := 5
  const BASE_DELAY_SECONDS: int := 15
  const MAX_DELAY_SECONDS: int := 15 * 60
  const WINDOW_SECONDS: int := 60 * 60
  const WINDOW_MS: int := WINDOW_SECONDS * 1000

  function BackoffDelaySeconds(failures: nat): (delay: int)
    ensures 0 <= delay <= MAX_DELAY_SECONDS
  {
    if failures <= FREE_ATTEMPTS then 0
    else Min(MAX_DELAY_SECONDS, BASE_DELAY_SECONDS * Pow2(failures - FREE_ATTEMPTS - 1))
  }

  /** More failures never wait less. */
  lemma DelayGrows(a: nat, b: nat)
    requires a <= b
    ensures BackoffDelaySeconds(a) <= BackoffDelaySeconds(b)
  {
    if FREE_ATTEMPTS < a {
      Pow2Grows(a - FREE_ATTEMPTS - 1, b - FREE_ATTEMPTS - 1);
    }
  }

  // ---------- The counters ----------

  datatype Key = Account(email: string) | Address(ip: string)

  /** A counter and the moment of its last increment; it expires one window after that. */
  datatype Counter = Counter(count: nat, last: int)

  type Counters = map<Key, Counter>

  predicate Alive(counters: Counters, key: Key, now: int) {
    key in counters && now < counters[key].last + WINDOW_MS
  }

  function Count(counters: Counters, key: Key, now: int): nat {
    if Alive(counters, key, now) then counters[key].count else 0
  }

  /** PTTL: the milliseconds a key has left, or -2 when it is not there. */
  function Pttl(counters: Counters, key: Key, now: int): int {
    if Alive(counters, key, now) then counters[key].last + WINDOW_MS - now else -2
  }

  /** PTTL as the caller hears it: a command that fails on its own is heard as -1. */
  function Heard(counters: Counters, key: Key, now: int, silent: set<Key>): int {
    if key in silent then -1 else Pttl(counters, key, now)
  }

  function ElapsedHeard(counters: Counters, account: Key, address: Key, now: int, silent: set<Key>): int {
    var remaining := Max(Heard(counters, account, now, silent), Heard(counters, address, now, silent));
    if remaining > 0 then WINDOW_SECONDS - CeilSeconds(remaining) else 0
  }

  function Elapsed(counters: Counters, account: Key, address: Key, now: int): int {
    ElapsedHeard(counters, account, address, now, {})
  }

  function Delay(counters: Counters, account: Key, address: Key, now: int): int {
    BackoffDelaySeconds(Max(Count(counters, account, now), Count(counters, address, now)))
  }

  function WaitHeard(counters: Counters, account: Key, address: Key, now: int, silent: set<Key>): int {
    var delay := Delay(counters, account, address, now);
    if delay <= 0 then 0 else delay - ElapsedHeard(counters, account, address, now, silent)
  }

  /** How long the caller is told to wait; not positive means admitted. */
  function Wait(counters: Counters, account: Key, address: Key, now: int): int {
    WaitHeard(counters, account, address, now, {})
  }

  predicate Admitted(counters: Counters, account: Key, address: Key, now: int) {
    Wait(counters, account, address, now) <= 0
  }

  function Incr(counters: Counters, key: Key, now: int): Counters {
    counters[key := Counter(Count(counters, key, now) + 1, now)]
  }

  function AfterFailure(counters: Counters, account: Key, address: Key, now: int): Counters {
    Incr(Incr(counters, account, now), address, now)
  }

  class LoginBackoffService {
    var counters: Counters
    var warned: bool

    constructor ()
      ensures counters == map[] && !warned
    {
      counters, warned := map[], false;
    }

    /**
     `down` says the store cannot be reached: the check then passes, and says so once.  `silent` are the
     keys whose PTTL fails on its own.
     */
    method AssertNotBackedOff(account: Key, address: Key, down: bool, silent: set<Key>, now: int) returns (wait: int)
      modifies this`warned
      ensures down ==> wait == 0 && warned
      ensures !down ==> warned == old(warned) && wait == WaitHeard(counters, account, address, now, silent)
      ensures !down && silent == {} ==> (wait <= 0 <==> Admitted(counters, account, address, now))
    {
      if down {
        warned := true;
        return 0;
      }
      var worst := Max(Count(counters, account, now), Count(counters, address, now));
      var delay := BackoffDelaySeconds(worst);
      if delay <= 0 {
        return 0;
      }
      var remaining := Max(Heard(counters, account, now, silent), Heard(counters, address, now, silent));
      var elapsed := if remaining > 0 then WINDOW_SECONDS - CeilSeconds(remaining) else 0;
      wait := delay - elapsed;
    }

    method RecordFailure(account: Key, address: Key, down: bool, now: int)
      modifies this
      ensures counters == if down then old(counters) else AfterFailure(old(counters), account, address, now)
    {
      if down {
        warned := true;
        return;
      }
      counters := counters[account := Counter(Count(counters, account, now) + 1, now)];
      counters := counters[address := Counter(Count(counters, address, now) + 1, now)];
    }

    method RecordSuccess(account: Key, down: bool)
      modifies this
      ensures counters == if down then old(counters) else old(counters) - {account}
    {
      if down {
        warned := true;
        return;
      }
      counters := counters - {account};
    }
  }

  // ---------- One attempt ----------

  predicate Sane(counters: Counters, now: int) {
    forall k :: k in counters ==> counters[k].last <= now
  }

  /** The seconds served are the whole seconds since the later of the two last failures. */
  lemma ElapsedIsSinceLastFailure(counters: Counters, account: Key, address: Key, now: int, key: Key)
    requires Sane(counters, now)
    requires key == account || key == address
    requires Alive(counters, key, now)
    ensures Elapsed(counters, account, address, now) * 1000 <= now - counters[key].last
  {
  }

  /** An admitted attempt has waited out each key's own delay since that key's last failure. */
  lemma AdmittedHasWaited(counters: Counters, account: Key, address: Key, now: int, key: Key)
    requires Sane(counters, now)
    requires Admitted(counters, account, address, now)
    requires key == account || key == address
    requires key in counters
    ensures counters[key].last + BackoffDelaySeconds(Count(counters, key, now)) * 1000 <= now
  {
    var worst := Max(Count(counters, account, now), Count(counters, address, now));
    DelayGrows(Count(counters, key, now), worst);
    if Alive(counters, key, now) {
      ElapsedIsSinceLastFailure(counters, account, address, now, key);
    }
  }

  /**
   A PTTL that fails on its own is meant to count as no time served.  It shortens the wait all the same,
   exactly when the other key answers and its last failure is the older one.
   */
  lemma SilentKeyShortensIff(counters: Counters, account: Key, address: Key, now: int)
    requires Sane(counters, now) && account != address
    ensures WaitHeard(counters, account, address, now, {account}) < Wait(counters, account, address, now)
            <==> && Delay(counters, account, address, now) > 0
                 && 0 < Pttl(counters, address, now)
                 && CeilSeconds(Pttl(counters, address, now)) < CeilSeconds(Pttl(counters, account, now))
  {
    assert Pttl(counters, account, now) <= WINDOW_MS && Pttl(counters, address, now) <= WINDOW_MS;
  }

  /** Nobody is held out for longer than 15 minutes after the last failure. */
  lemma QuietIsAdmitted(counters: Counters, account: Key, address: Key, now: int)
    requires forall k :: k in counters && (k == account || k == address) ==> counters[k].last + 900_000 <= now
    ensures Admitted(counters, account, address, now)
  {
    assert Alive(counters, account, now) ==> Pttl(counters, account, now) <= WINDOW_MS - 900_000;
    assert Alive(counters, address, now) ==> Pttl(counters, address, now) <= WINDOW_MS - 900_000;
  }

  // ---------- Guessing one account ----------

  /** Serialised attempts: a failure is recorded at the moment its attempt was admitted. */
  datatype Event =
    | Failure(account: Key, address: Key, at: int)
    | Success(account: Key, address: Key, at: int)

  function After(counters: Counters, e: Event): Counters {
    match e
    case Failure(account, address, at) => AfterFailure(counters, account, address, at)
    case Success(account, _, _) => counters - {account}
  }

  ghost predicate ValidRun(counters: Counters, events: seq<Event>, now: int)
    decreases |events|
  {
    events != [] ==>
      && now <= events[0].at
      && events[0].account.Account? && events[0].address.Address?
      && Admitted(counters, events[0].account, events[0].address, events[0].at)
      && ValidRun(After(counters, events[0]), events[1..], events[0].at)
  }

  /** The moments at which `account` failed. */
  function FailureTimes(events: seq<Event>, account: Key): seq<int> {
    if events == [] then []
    else (if events[0].Failure? && events[0].account == account then [events[0].at] else []) + FailureTimes(events[1..], account)
  }

  ghost predicate NoSuccess(events: seq<Event>, account: Key) {
    forall e :: e in events ==> !(e.Success? && e.account == account)
  }

  /** The delays served before the failures after the first `done` of them, in milliseconds. */
  function Served(done: nat, more: nat): int
    decreases more
  {
    if more == 0 then 0 else BackoffDelaySeconds(done) * 1000 + Served(done + 1, more - 1)
  }

  /** Consecutive failures, starting from one at `last`, with less than the window between any two. */
  ghost predicate NoGap(last: int, times: seq<int>)
    decreases |times|
  {
    times != [] ==> times[0] < last + WINDOW_MS && NoGap(times[0], times[1..])
  }

  /** The account's own next failure has waited out its delay, and is counted; any other event leaves the counter. */
  lemma {:induction false} AttemptStep(counters: Counters, e: Event, now: int, account: Key)
    requires account.Account? && e.address.Address? && account in counters
    requires Sane(counters, now) && now <= e.at && Admitted(counters, e.account, e.address, e.at)
    requires !(e.Success? && e.account == account)
    ensures Sane(After(counters, e), e.at)
    ensures
      if e.Failure? && e.account == account then
        && e.at >= counters[account].last + BackoffDelaySeconds(Count(counters, account, e.at)) * 1000
        && After(counters, e)[account] == Counter(Count(counters, account, e.at) + 1, e.at)
      else account in After(counters, e) && After(counters, e)[account] == counters[account]
  {
    if e.Failure? && e.account == account {
      AdmittedHasWaited(counters, e.account, e.address, e.at, account);
    }
  }

  /** The last of these times comes no sooner after `last` than the delays in between. */
  predicate TookAtLeast(last: int, times: seq<int>, done: nat) {
    times != [] ==> times[|times| - 1] - last >= Served(done, |times|)
  }

  lemma {:induction false} OneMoreTook(last: int, t: int, times: seq<int>, done: nat)
    requires t - last >= BackoffDelaySeconds(done) * 1000
    requires TookAtLeast(t, times, done + 1)
    ensures TookAtLeast(last, [t] + times, done)
  {
    assert Served(done, 1 + |times|) == BackoffDelaySeconds(done) * 1000 + Served(done + 1, |times|);
    if times == [] {
      assert Served(done + 1, 0) == 0;
    } else {
      assert ([t] + times)[|times|] == times[|times| - 1];
    }
  }

  lemma {:induction false} FailuresTakeTime(counters: Counters, events: seq<Event>, now: int, account: Key, done: nat)
    requires account.Account? && account in counters && counters[account].count == done
    requires Sane(counters, now) && ValidRun(counters, events, now) && NoSuccess(events, account)
    requires NoGap(counters[account].last, FailureTimes(events, account))
    ensures TookAtLeast(counters[account].last, FailureTimes(events, account), done)
    decreases |events|
  {
    if events != [] {
      var e, rest := events[0], events[1..];
      var counters' := After(counters, e);
      assert e in events;
      assert forall x :: x in rest ==> x in events;
      AttemptStep(counters, e, now, account);
      if e.Failure? && e.account == account {
        assert FailureTimes(events, account) == [e.at] + FailureTimes(rest, account);
        assert Alive(counters, account, e.at);
        FailuresTakeTime(counters', rest, e.at, account, done + 1);
        OneMoreTook(counters[account].last, e.at, FailureTimes(rest, account), done);
      } else {
        assert FailureTimes(events, account) == FailureTimes(rest, account);
        FailuresTakeTime(counters', rest, e.at, account, done);
      }
    }
  }

  lemma {:induction false} ServedSplits(done: nat, a: nat, b: nat)
    ensures Served(done, a + b) == Served(done, a) + Served(done + a, b)
    decreases a
  {
    if a > 0 {
      ServedSplits(done + 1, a - 1, b);
    }
  }

  /** From the twelfth failure on, every further one costs the full 15 minutes. */
  lemma {:induction false} ServedAtCap(done: nat, more: nat)
    requires done >= 12
    ensures Served(done, more) == 900_000 * more
    decreases more
  {
    if more > 0 {
      Pow2Grows(6, done - FREE_ATTEMPTS - 1);
      assert Pow2(6) == 64;
      ServedAtCap(done + 1, more - 1);
    }
  }

  lemma ServedToTwelve()
    ensures Served(1, 11) == 945_000
  {
    assert Pow2(1) == 2 && Pow2(2) == 4 && Pow2(3) == 8 && Pow2(4) == 16 && Pow2(5) == 32;
    assert Served(10, 2) == BackoffDelaySeconds(10) * 1000 + BackoffDelaySeconds(11) * 1000;
    assert Served(7, 5) == BackoffDelaySeconds(7) * 1000 + BackoffDelaySeconds(8) * 1000 + BackoffDelaySeconds(9) * 1000 + Served(10, 2);
    assert Served(1, 6) == BackoffDelaySeconds(6) * 1000;
    ServedSplits(1, 6, 5);
  }

  /**
   n >= 12 failures on one account, with no success and no hour-long gap between them, take at least
   945 + 900(n - 12) seconds, whatever other accounts and addresses do meanwhile.
   */
  lemma GuessingIsSlow(counters: Counters, first: Event, events: seq<Event>, account: Key)
    requires account.Account?
    requires first.Failure? && first.account == account && first.address.Address?
    requires !Alive(counters, account, first.at)
    requires Sane(counters, first.at)
    requires ValidRun(After(counters, first), events, first.at) && NoSuccess(events, account)
    requires NoGap(first.at, FailureTimes(events, account))
    requires |FailureTimes(events, account)| + 1 >= 12
    ensures var times := FailureTimes(events, account);
            var n := |times| + 1;
            times[n - 2] - first.at >= 1000 * (945 + 900 * (n - 12))
  {
    var times := FailureTimes(events, account);
    FailuresTakeTime(After(counters, first), events, first.at, account, 1);
    ServedSplits(1, 11, |times| - 11);
    ServedToTwelve();
    ServedAtCap(12, |times| - 11);
  }
}
