/**
 Second-factor codes, each usable once.  A code belongs to a 30-second step and verifies one step
 either side; a used code is remembered for 90 seconds, in process.
 */
module Totp {
  import opened Wrappers

  type User = string
  type Secret = string
  type Code = string

  const STEP_MS: int := 30_000
  const MFA_REPLAY_WINDOW_MS: int := 90_000

  /** The code an authenticator shows for a secret in a step (RFC 6238, section 4.2). */
  type Authenticator = (Secret, int) -> Code

  /** `<user>:<sha256(code)>`, the hash being injective. */
  datatype Fingerprint = Fingerprint(user: User, code: Code)

  type Consumed = map<Fingerprint, int>

  function StepOf(now: int): int {
    now / STEP_MS
  }

  /** The library's check with a window of one step. */
  predicate Verifies(totp: Authenticator, secret: Secret, code: Code, now: int) {
    code == totp(secret, StepOf(now) - 1) || code == totp(secret, StepOf(now)) || code == totp(secret, StepOf(now) + 1)
  }

  function Forget(consumed: Consumed, now: int): Consumed {
    map f | f in consumed && consumed[f] > now :: consumed[f]
  }

  datatype Verdict = Accepted | NotSetUp | Invalid | AlreadyUsed

  function Judge(totp: Authenticator, consumed: Consumed, secret: Option<Secret>, code: Code, user: User, now: int): Verdict {
    if secret.None? then NotSetUp
    else if !Verifies(totp, secret.value, code, now) then Invalid
    else if Fingerprint(user, code) in Forget(consumed, now) then AlreadyUsed
    else Accepted
  }

  function ConsumedAfter(totp: Authenticator, consumed: Consumed, secret: Option<Secret>, code: Code, user: User, now: int): Consumed {
    match Judge(totp, consumed, secret, code, user, now)
    case Accepted => Forget(consumed, now)[Fingerprint(user, code) := now + MFA_REPLAY_WINDOW_MS]
    case AlreadyUsed => Forget(consumed, now)
    case _ => consumed
  }

  class MfaService {
    const totp: Authenticator
    var consumed: Consumed

    constructor (totp: Authenticator)
      ensures this.totp == totp && consumed == map[]
    {
      this.totp := totp;
      consumed := map[];
    }

    /** Walks the map and deletes what has run out. */
    method ForgetExpiredMfaCodes(now: int)
      modifies this`consumed
      ensures consumed == Forget(old(consumed), now)
    {
      var left := consumed.Keys;
      while left != {}
        invariant left <= old(consumed).Keys
        invariant consumed == map f | f in old(consumed) && (f in left || old(consumed)[f] > now) :: old(consumed)[f]
        decreases left
      {
        var f :| f in left;
        if consumed[f] <= now {
          consumed := consumed - {f};
        }
        left := left - {f};
      }
    }

    method AssertValidMfaCode(secret: Option<Secret>, code: Code, user: User, now: int) returns (verdict: Verdict)
      modifies this`consumed
      ensures verdict == Judge(totp, old(consumed), secret, code, user, now)
      ensures consumed == ConsumedAfter(totp, old(consumed), secret, code, user, now)
    {
      if secret.None? {
        return NotSetUp;
      }
      if !Verifies(totp, secret.value, code, now) {
        return Invalid;
      }
      var fingerprint := Fingerprint(user, code);
      ForgetExpiredMfaCodes(now);
      if fingerprint in consumed {
        return AlreadyUsed;
      }
      consumed := consumed[fingerprint := now + MFA_REPLAY_WINDOW_MS];
      return Accepted;
    }
  }

  // ---------- Runs on one instance ----------

  /** One presentation of a code. */
  datatype Attempt = Attempt(user: User, secret: Option<Secret>, code: Code, at: int)

  function After(totp: Authenticator, consumed: Consumed, attempts: seq<Attempt>): Consumed
    decreases |attempts|
  {
    if attempts == [] then consumed
    else
      var a := attempts[|attempts| - 1];
      ConsumedAfter(totp, After(totp, consumed, attempts[..|attempts| - 1]), a.secret, a.code, a.user, a.at)
  }

  ghost predicate InOrder(attempts: seq<Attempt>) {
    forall i, j :: 0 <= i <= j < |attempts| ==> attempts[i].at <= attempts[j].at
  }

  /** The verdict on attempt `i` of a run that starts with nothing remembered. */
  function VerdictAt(totp: Authenticator, attempts: seq<Attempt>, i: nat): Verdict
    requires i < |attempts|
  {
    var a := attempts[i];
    Judge(totp, After(totp, map[], attempts[..i]), a.secret, a.code, a.user, a.at)
  }

  /** What is remembered is only ever purged after the full window. */
  lemma {:induction false} Remembered(totp: Authenticator, attempts: seq<Attempt>, i: nat, n: nat)
    requires InOrder(attempts) && i < n <= |attempts|
    requires VerdictAt(totp, attempts, i) == Accepted
    ensures var f := Fingerprint(attempts[i].user, attempts[i].code);
            attempts[n - 1].at < attempts[i].at + MFA_REPLAY_WINDOW_MS ==>
              && f in After(totp, map[], attempts[..n])
              && After(totp, map[], attempts[..n])[f] >= attempts[i].at + MFA_REPLAY_WINDOW_MS
    decreases n
  {
    assert attempts[..n][..n - 1] == attempts[..n - 1];
    if n > i + 1 {
      Remembered(totp, attempts, i, n - 1);
    }
  }

  /** One code of one user is accepted at most once in any 90 seconds. */
  lemma AcceptedOncePerWindow(totp: Authenticator, attempts: seq<Attempt>, i: nat, j: nat)
    requires InOrder(attempts) && i < j < |attempts|
    requires attempts[i].user == attempts[j].user && attempts[i].code == attempts[j].code
    requires VerdictAt(totp, attempts, i) == Accepted && VerdictAt(totp, attempts, j) == Accepted
    ensures attempts[i].at + MFA_REPLAY_WINDOW_MS <= attempts[j].at
  {
    if attempts[j].at < attempts[i].at + MFA_REPLAY_WINDOW_MS {
      Remembered(totp, attempts, i, j);
    }
  }

  /** `at` lies in the span in which the code of `step` may be accepted. */
  predicate InStepWindow(step: int, at: int) {
    StepOf(at) - 1 <= step <= StepOf(at) + 1
  }

  /**
   Single use (RFC 6238, section 5.2): the code of a given step is accepted at most once per user over
   any run, however many other codes and users come between.
   */
  lemma StepAcceptedOnce(totp: Authenticator, attempts: seq<Attempt>, step: int, i: nat, j: nat)
    requires InOrder(attempts) && i < j < |attempts|
    requires attempts[i].user == attempts[j].user && attempts[i].code == attempts[j].code
    requires InStepWindow(step, attempts[i].at) && InStepWindow(step, attempts[j].at)
    ensures !(VerdictAt(totp, attempts, i) == Accepted && VerdictAt(totp, attempts, j) == Accepted)
  {
    if VerdictAt(totp, attempts, i) == Accepted && VerdictAt(totp, attempts, j) == Accepted {
      AcceptedOncePerWindow(totp, attempts, i, j);
    }
  }

  /** The purge never forgets a code while it could still be accepted for the step it was used in. */
  lemma PurgeIsSafe(totp: Authenticator, attempts: seq<Attempt>, i: nat, n: nat, step: int, now: int)
    requires InOrder(attempts) && i < n <= |attempts|
    requires VerdictAt(totp, attempts, i) == Accepted
    requires InStepWindow(step, attempts[i].at) && InStepWindow(step, now)
    requires attempts[n - 1].at <= now
    ensures Fingerprint(attempts[i].user, attempts[i].code) in Forget(After(totp, map[], attempts[..n]), now)
  {
    assert (step - 1) * STEP_MS <= attempts[i].at;
    assert now < (step + 2) * STEP_MS;
    Remembered(totp, attempts, i, n);
  }
}
