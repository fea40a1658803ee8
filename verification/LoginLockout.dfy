/**
 Failed-login counting and lockout.  Times are integer milliseconds; an account is
 locked while its fifth or later failure is less than fifteen minutes old.
 */
module LoginLockout {
  import opened Common

  type Time = int

  const MAX_LOGIN_ATTEMPTS: nat := 5
  const LOCKOUT_SECS: nat := 15 * 60
  const LOCKOUT_MS: Time := 900_000

  datatype Attempts = Attempts(count: nat, last: Time)

  type Table = map<Id, Attempts>

  /** Whole seconds since `since`, rounded down; never negative. */
  function ElapsedSecs(now: Time, since: Time): (r: nat)
    ensures now >= since ==> 1000 * r <= now - since < 1000 * r + 1000
    ensures now < since ==> r == 0
  {
    if now <= since then 0 else (now - since) / 1000
  }

  predicate Locked(t: Table, email: Id, now: Time) {
    email in t && t[email].count >= MAX_LOGIN_ATTEMPTS && ElapsedSecs(now, t[email].last) < LOCKOUT_SECS
  }

  /** A login's outcome: success clears the entry, failure counts and stamps it. */
  function Recorded(t: Table, email: Id, now: Time, valid: bool): Table {
    if valid then t - {email} else t[email := Attempts((if email in t then t[email].count else 0) + 1, now)]
  }

  function Cleaned(t: Table, now: Time): Table {
    map email | email in t && ElapsedSecs(now, t[email].last) < LOCKOUT_SECS :: t[email]
  }

  lemma ElapsedExact(now: Time, since: Time)
    ensures ElapsedSecs(now, since) < LOCKOUT_SECS <==> now - since < LOCKOUT_MS
  {
  }

  /** Locked: five failures or more counted, the last one less than fifteen minutes ago. */
  lemma LockedMeans(t: Table, email: Id, now: Time)
    ensures Locked(t, email, now) <==> email in t && t[email].count >= 5 && now - t[email].last < 15 * 60 * 1000
  {
  }

  /** A success removes the entry of the account, a failure counts one more and stamps it; no other entry changes. */
  lemma RecordedMeans(t: Table, email: Id, now: Time, valid: bool)
    ensures var u := Recorded(t, email, now, valid);
            && (valid ==> email !in u)
            && (!valid ==> email in u && u[email].last == now && u[email].count == 1 + if email in t then t[email].count else 0)
            && forall other | other != email :: (other in u <==> other in t) && (other in t ==> u[other] == t[other])
  {
  }

  /** A cleanup drops exactly the entries stamped fifteen minutes ago or earlier, and changes no other. */
  lemma CleanedMeans(t: Table, now: Time)
    ensures forall email :: email in Cleaned(t, now) <==> email in t && now - t[email].last < 15 * 60 * 1000
    ensures forall email | email in Cleaned(t, now) :: Cleaned(t, now)[email] == t[email]
  {
    forall email | email in t ensures email in Cleaned(t, now) <==> now - t[email].last < 15 * 60 * 1000 {
      ElapsedExact(now, t[email].last);
    }
  }

  /** A cleanup lifts no lockout, now or later: the check answers the same with and without it. */
  lemma CleanupLiftsNoLockout(t: Table, now: Time, email: Id, later: Time)
    requires now <= later
    ensures Locked(Cleaned(t, now), email, later) <==> Locked(t, email, later)
  {
    if email in t {
      ElapsedExact(now, t[email].last);
      ElapsedExact(later, t[email].last);
    }
  }

  datatype Outcome = LockedOut | Success | Failure

  class AuthService {
    var loginAttempts: Table

    constructor ()
      ensures loginAttempts == map[]
    {
      loginAttempts := map[];
    }

    method CheckLoginLockout(email: Id, now: Time) returns (remainingMinutes: Option<nat>)
      ensures remainingMinutes.Some? <==> Locked(loginAttempts, email, now)
      ensures remainingMinutes.Some? ==>
                var remaining := LOCKOUT_SECS - ElapsedSecs(now, loginAttempts[email].last);
                60 * (remainingMinutes.value - 1) <= remaining < 60 * remainingMinutes.value
    {
      if email in loginAttempts && loginAttempts[email].count >= MAX_LOGIN_ATTEMPTS {
        var elapsed := ElapsedSecs(now, loginAttempts[email].last);
        if elapsed < LOCKOUT_SECS {
          return Some((LOCKOUT_SECS - elapsed) / 60 + 1);
        }
      }
      return None;
    }

    /** The second half of a login, once its credentials have been verified. */
    method RecordResult(email: Id, now: Time, valid: bool)
      modifies this
      ensures loginAttempts == Recorded(old(loginAttempts), email, now, valid)
    {
      if valid {
        loginAttempts := loginAttempts - {email};
      } else {
        var entry := if email in loginAttempts then loginAttempts[email] else Attempts(0, now);
        loginAttempts := loginAttempts[email := Attempts(entry.count + 1, now)];
      }
    }

    /** A login that nothing comes in between: the check, the verification, the recording. */
    method TryLogin(email: Id, checked: Time, recorded: Time, valid: bool) returns (outcome: Outcome)
      modifies this
      ensures outcome == LockedOut <==> Locked(old(loginAttempts), email, checked)
      ensures outcome == LockedOut ==> loginAttempts == old(loginAttempts)
      ensures outcome != LockedOut ==>
                loginAttempts == Recorded(old(loginAttempts), email, recorded, valid) && (outcome == Success <==> valid)
    {
      var locked := CheckLoginLockout(email, checked);
      if locked.Some? {
        return LockedOut;
      }
      RecordResult(email, recorded, valid);
      return if valid then Success else Failure;
    }

    /** Drops every entry whose last attempt is fifteen minutes old. */
    method CleanupOldLoginAttempts(now: Time)
      modifies this
      ensures loginAttempts == Cleaned(old(loginAttempts), now)
    {
      ghost var before := loginAttempts;
      var todo := loginAttempts.Keys;
      while todo != {}
        invariant todo <= before.Keys
        invariant loginAttempts ==
                  map email | email in before && (email in todo || ElapsedSecs(now, before[email].last) < LOCKOUT_SECS) :: before[email]
        decreases todo
      {
        var email :| email in todo;
        todo := todo - {email};
        if ElapsedSecs(now, loginAttempts[email].last) >= LOCKOUT_SECS {
          loginAttempts := loginAttempts - {email};
        }
      }
      assert loginAttempts == Cleaned(before, now);
    }
  }
}
