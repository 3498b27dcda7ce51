/** The login lockout: failed logins are counted per lower-case email, and ten of them lock the email for a while. */
module Lockout {
  import opened Prelude

  const LOCKOUT_THRESHOLD: nat := 10
  const LOCKOUT_MS: nat := 15 * 60 * 1000

  datatype Entry = Entry(count: nat, lockedUntil: Option<nat>)

  type FailedLogins = map<string, Entry>

  datatype Outcome = AccountLocked | InvalidCredentials | LoggedIn

  // One login call: the clock is read before the credentials are looked up and again when a failure is recorded.
  datatype Attempt = Attempt(email: string, checkedAt: nat, recordedAt: nat, credentialsValid: bool)

  predicate IsLocked(failed: FailedLogins, email: string, now: nat) {
    var key := Lower(email);
    key in failed && failed[key].lockedUntil.Some? && now < failed[key].lockedUntil.value
  }

  function CountOf(failed: FailedLogins, key: string): nat {
    if key in failed then failed[key].count else 0
  }

  function OutcomeOf(failed: FailedLogins, a: Attempt): Outcome {
    if IsLocked(failed, a.email, a.checkedAt) then AccountLocked
    else if a.credentialsValid then LoggedIn
    else InvalidCredentials
  }

  class AuthService {
    var failedLogins: FailedLogins

    constructor ()
      ensures failedLogins == map[]
    {
      failedLogins := map[];
    }

    // True stands for the exception ACCOUNT_LOCKED.
    method AssertNotLocked(email: string, now: nat) returns (locked: bool)
      ensures locked == IsLocked(failedLogins, email, now)
    {
      var key := Lower(email);
      if key in failedLogins && failedLogins[key].lockedUntil.Some? && now < failedLogins[key].lockedUntil.value {
        return true;
      }
      locked := false;
    }

    // The count goes up by one, and from the tenth failure on each one locks the email anew.
    method RecordFailedLogin(email: string, now: nat)
      modifies this
      ensures failedLogins.Keys == old(failedLogins).Keys + {Lower(email)}
      ensures forall key :: key in old(failedLogins) && key != Lower(email) ==>
                failedLogins[key] == old(failedLogins)[key]
      ensures CountOf(failedLogins, Lower(email)) == CountOf(old(failedLogins), Lower(email)) + 1
      ensures CountOf(failedLogins, Lower(email)) >= LOCKOUT_THRESHOLD
              ==> failedLogins[Lower(email)].lockedUntil == Some(now + LOCKOUT_MS)
      ensures CountOf(failedLogins, Lower(email)) < LOCKOUT_THRESHOLD
              ==> failedLogins[Lower(email)].lockedUntil
                  == (if Lower(email) in old(failedLogins) then old(failedLogins)[Lower(email)].lockedUntil else None)
      ensures failedLogins == Recorded(old(failedLogins), email, now)
    {
      var key := Lower(email);
      var entry := if key in failedLogins then failedLogins[key] else Entry(0, None);
      entry := entry.(count := entry.count + 1);
      if entry.count >= LOCKOUT_THRESHOLD {
        entry := entry.(lockedUntil := Some(now + LOCKOUT_MS));
      }
      failedLogins := failedLogins[key := entry];
    }

    method Login(a: Attempt) returns (outcome: Outcome)
      modifies this
      ensures outcome == OutcomeOf(old(failedLogins), a)
      ensures failedLogins == Step(old(failedLogins), a)
    {
      var locked := AssertNotLocked(a.email, a.checkedAt);
      if locked {
        return AccountLocked;
      }
      if !a.credentialsValid {
        RecordFailedLogin(a.email, a.recordedAt);
        return InvalidCredentials;
      }
      failedLogins := failedLogins - {a.email};
      outcome := LoggedIn;
    }
  }

  // ---- Runs of sequential login calls ----

  function Recorded(failed: FailedLogins, email: string, now: nat): FailedLogins {
    var n := CountOf(failed, Lower(email)) + 1;
    var before := if Lower(email) in failed then failed[Lower(email)].lockedUntil else None;
    failed[Lower(email) := Entry(n, if n >= LOCKOUT_THRESHOLD then Some(now + LOCKOUT_MS) else before)]
  }

  function Step(failed: FailedLogins, a: Attempt): FailedLogins {
    match OutcomeOf(failed, a)
    case AccountLocked => failed
    case InvalidCredentials => Recorded(failed, a.email, a.recordedAt)
    case LoggedIn => failed - {a.email}  // the email as it was typed, not in lower case
  }

  function After(log: seq<Attempt>): FailedLogins {
    if log == [] then map[] else Step(After(log[..|log| - 1]), log[|log| - 1])
  }

  // Each call ends before the next one starts.
  ghost predicate Sequential(log: seq<Attempt>) {
    && (forall i :: 0 <= i < |log| ==> log[i].checkedAt <= log[i].recordedAt)
    && (forall i, j :: 0 <= i < j < |log| ==> log[i].recordedAt <= log[j].checkedAt)
  }

  /**
   * The instants at which failures of the lower-case email were recorded since it was last cleared. Only a
   * successful login typed exactly in lower case clears it.
   */
  function Failures(log: seq<Attempt>, key: string): seq<nat> {
    if log == [] then []
    else
      var front, a := log[..|log| - 1], log[|log| - 1];
      match OutcomeOf(After(front), a)
      case InvalidCredentials =>
        if Lower(a.email) == key then Failures(front, key) + [a.recordedAt] else Failures(front, key)
      case LoggedIn => if a.email == key then [] else Failures(front, key)
      case AccountLocked => Failures(front, key)
  }

  // The stored entry is a function of the recorded failures.
  function EntryFor(failures: seq<nat>): Option<Entry> {
    if failures == [] then None
    else Some(Entry(|failures|,
                    if |failures| >= LOCKOUT_THRESHOLD then Some(failures[|failures| - 1] + LOCKOUT_MS) else None))
  }

  function Lookup(failed: FailedLogins, key: string): Option<Entry> {
    if key in failed then Some(failed[key]) else None
  }

  lemma {:induction false} EntryIsDeterminedByFailures(log: seq<Attempt>, key: string)
    ensures Lookup(After(log), key) == EntryFor(Failures(log, key))
  {
    if log != [] {
      EntryIsDeterminedByFailures(log[..|log| - 1], key);
    }
  }

  /**
   * After any run, an email in whatever case is locked exactly while fewer than 15 minutes have passed since the
   * last of at least ten recorded failures; a locked email is refused whatever the credentials.
   */
  lemma LockedIff(log: seq<Attempt>, a: Attempt)
    ensures var failures := Failures(log, Lower(a.email));
            OutcomeOf(After(log), a) == AccountLocked
            <==> |failures| >= 10 && a.checkedAt < failures[|failures| - 1] + 900_000
  {
    EntryIsDeterminedByFailures(log, Lower(a.email));
  }

  /**
   * An attempt with wrong credentials is recorded, at the instant of its second clock reading, among the failures of
   * its lower-case email unless that is locked; a failed or refused attempt changes nothing for any other email.
   */
  lemma FailureCountsInAnyCase(log: seq<Attempt>, a: Attempt, key: string)
    requires !a.credentialsValid || OutcomeOf(After(log), a) == AccountLocked
    ensures Failures(log + [a], key) ==
            if Lower(a.email) == key && OutcomeOf(After(log), a) != AccountLocked
            then Failures(log, key) + [a.recordedAt] else Failures(log, key)
  {
    assert (log + [a])[..|log|] == log;
  }

  // From the tenth on, consecutive recorded failures lie at least one lockout apart.
  ghost predicate Spaced(failures: seq<nat>) {
    forall i, j :: LOCKOUT_THRESHOLD - 1 <= i <= j < |failures| ==> failures[j] >= failures[i] + (j - i) * LOCKOUT_MS
  }

  lemma SpacedAppend(failures: seq<nat>, t: nat)
    requires Spaced(failures)
    requires |failures| >= LOCKOUT_THRESHOLD ==> t >= failures[|failures| - 1] + LOCKOUT_MS
    ensures Spaced(failures + [t])
  {
    var n, all := |failures|, failures + [t];
    forall i | LOCKOUT_THRESHOLD - 1 <= i <= n
      ensures all[n] >= all[i] + (n - i) * LOCKOUT_MS
    {
      if i < n {
        assert failures[n - 1] >= failures[i] + (n - 1 - i) * LOCKOUT_MS;
        assert (n - i) * LOCKOUT_MS == (n - 1 - i) * LOCKOUT_MS + LOCKOUT_MS;
      }
    }
  }

  lemma {:induction false} FailuresAreSpaced(log: seq<Attempt>, key: string)
    requires Sequential(log)
    ensures Spaced(Failures(log, key))
  {
    if log != [] {
      var front, a := log[..|log| - 1], log[|log| - 1];
      FailuresAreSpaced(front, key);
      EntryIsDeterminedByFailures(front, key);
      if OutcomeOf(After(front), a) == InvalidCredentials && Lower(a.email) == key {
        SpacedAppend(Failures(front, key), a.recordedAt);
      }
    }
  }

  // How many of the instants are not after the bound.
  function NotAfter(failures: seq<nat>, bound: nat): nat {
    if failures == [] then 0
    else NotAfter(failures[..|failures| - 1], bound) + if failures[|failures| - 1] <= bound then 1 else 0
  }

  lemma {:induction false} NotAfterBound(failures: seq<nat>, t: nat)
    requires Spaced(failures) && |failures| >= LOCKOUT_THRESHOLD
    ensures NotAfter(failures, failures[LOCKOUT_THRESHOLD - 1] + t) <= LOCKOUT_THRESHOLD + t / LOCKOUT_MS
  {
    var n, first := |failures|, failures[LOCKOUT_THRESHOLD - 1];
    NotAfterAtMostAll(failures, first + t);
    if n > LOCKOUT_THRESHOLD {
      var front := failures[..n - 1];
      NotAfterBound(front, t);
      if failures[n - 1] <= first + t {
        assert (n - LOCKOUT_THRESHOLD) * LOCKOUT_MS <= t;
        QuotientAtLeast(n - LOCKOUT_THRESHOLD, t);
      }
    }
  }

  lemma QuotientAtLeast(k: nat, t: nat)
    requires k * LOCKOUT_MS <= t
    ensures k <= t / LOCKOUT_MS
  {
  }

  lemma {:induction false} NotAfterAtMostAll(failures: seq<nat>, bound: nat)
    ensures NotAfter(failures, bound) <= |failures|
  {
    if failures != [] {
      NotAfterAtMostAll(failures[..|failures| - 1], bound);
    }
  }

  /**
   * In any sequential run of logins, the (10 + m)-th failure recorded for a lower-case email since it was last
   * cleared comes at least m times 15 minutes after the tenth, so at most 10 + t / 900000 are recorded up to t
   * milliseconds after it.
   */
  lemma LockoutBound(log: seq<Attempt>, key: string, m: nat, t: nat)
    requires Sequential(log)
    ensures var failures := Failures(log, key);
            |failures| >= 10 + m ==> failures[9 + m] >= failures[9] + m * 900_000
    ensures var failures := Failures(log, key);
            |failures| >= 10 ==> NotAfter(failures, failures[9] + t) <= 10 + t / 900_000
  {
    FailuresAreSpaced(log, key);
    var failures := Failures(log, key);
    if |failures| >= LOCKOUT_THRESHOLD {
      NotAfterBound(failures, t);
    }
  }

  /**
   * A successful login resets the failures counted against its email exactly if the email was typed in lower
   * case or nothing was counted: the counter is kept under the lower-case email but removed under the typed one.
   */
  lemma SuccessClearsIffLowerCase(log: seq<Attempt>, a: Attempt)
    requires OutcomeOf(After(log), a) == LoggedIn
    ensures Failures(log + [a], Lower(a.email)) == []
            <==> a.email == Lower(a.email) || Failures(log, Lower(a.email)) == []
  {
    assert (log + [a])[..|log|] == log;
  }

  // A failure as "a" followed by a success typed as "A" leaves the failure counted.
  lemma CapitalisedSuccessDoesNotClear()
    ensures exists log: seq<Attempt>, a: Attempt ::
              && Sequential(log + [a]) && OutcomeOf(After(log), a) == LoggedIn
              && Failures(log + [a], Lower(a.email)) != []
  {
    var fail, success := Attempt("a", 0, 0, false), Attempt("A", 0, 0, true);
    var log := [fail];
    assert Lower("a") == "a" && Lower("A") == "a";
    assert log[..0] == [];
    assert After([]) == map[];
    assert After(log) == Step(map[], fail);
    assert Failures(log, "a") == [0] by {
      assert Failures([], "a") == [];
      assert OutcomeOf(map[], fail) == InvalidCredentials;
    }
    assert OutcomeOf(After(log), success) == LoggedIn;
    SuccessClearsIffLowerCase(log, success);
    assert Sequential(log + [success]);
  }
}
