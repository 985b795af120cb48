/** Blocking a user after too many failed logins. */
module Lockout {
  import opened Common

  /** Zero or absent means the policy is not set; the block time is in the unit of the clock. */
  datatype AuthPolicy = AuthPolicy(limit: int, blockTime: int)

  datatype Account = Account(failed: int, blockedAt: Option<int>, lastFailedAt: Option<int>)

  /** `now` is the clock when the block is looked at, `later` when times are stored. */
  datatype Attempt = Attempt(success: bool, now: int, later: int)

  datatype Verdict = Allowed | Forbidden

  predicate PolicySet(p: AuthPolicy) {
    p.limit != 0 && p.blockTime != 0
  }

  predicate BlockHolds(p: AuthPolicy, u: Account, now: int) {
    u.blockedAt.Some? && u.blockedAt.value + p.blockTime >= now
  }

  /** The state after an attempt, and the answer. */
  function After(p: AuthPolicy, u: Account, a: Attempt): (Account, Verdict) {
    if !PolicySet(p) then (u, Allowed)
    else if BlockHolds(p, u, a.now) then (u, Forbidden)
    else if a.success then (u.(failed := 0, blockedAt := None), Allowed)
    else
      var counted :=
        if u.blockedAt.Some? then Account(1, None, u.lastFailedAt)
        else Account(u.failed + 1, None, Some(a.later));
      if counted.failed >= p.limit then (counted.(blockedAt := Some(a.later)), Forbidden) else (counted, Allowed)
  }

  class User {
    var failedLoginAttempts: int
    var blockedAt: Option<int>
    var lastFailedLoginAt: Option<int>

    function View(): Account
      reads this
    {
      Account(failedLoginAttempts, blockedAt, lastFailedLoginAt)
    }

    constructor ()
      ensures View() == Account(0, None, None)
    {
      failedLoginAttempts := 0;
      blockedAt := None;
      lastFailedLoginAt := None;
    }

    /** The branch on the time of the last failure sets 1 where adding 1 to 0 would give it too. */
    method ProcessLoginAttempts(policy: AuthPolicy, a: Attempt) returns (r: Verdict)
      modifies this
      ensures (View(), r) == After(policy, old(View()), a)
      ensures r == Forbidden <==>
              && policy.limit != 0 && policy.blockTime != 0
              && (|| (old(blockedAt).Some? && a.now <= old(blockedAt).value + policy.blockTime)
                  || (!a.success
                      && policy.limit <= if old(blockedAt).Some? then 1 else old(failedLoginAttempts) + 1))
      ensures lastFailedLoginAt ==
              if policy.limit != 0 && policy.blockTime != 0 && !a.success && old(blockedAt).None? then Some(a.later)
              else old(lastFailedLoginAt)
    {
      if policy.limit == 0 || policy.blockTime == 0 {
        return Allowed;
      }
      if a.success {
        if blockedAt.Some? {
          var periodPast := blockedAt.value + policy.blockTime < a.now;
          if !periodPast {
            return Forbidden;
          }
        }
        failedLoginAttempts := 0;
        blockedAt := None;
        return Allowed;
      }
      if blockedAt.Some? {
        var periodPast := blockedAt.value + policy.blockTime < a.now;
        if !periodPast {
          return Forbidden;
        }
        failedLoginAttempts := 1;
        blockedAt := None;
      } else {
        if lastFailedLoginAt.Some? && lastFailedLoginAt.value + policy.blockTime < a.now && failedLoginAttempts == 0 {
          failedLoginAttempts := 1;
        } else {
          failedLoginAttempts := failedLoginAttempts + 1;
        }
        lastFailedLoginAt := Some(a.later);
      }
      if failedLoginAttempts >= policy.limit {
        blockedAt := Some(a.later);
        r := Forbidden;
      } else {
        r := Allowed;
      }
    }
  }

  // ---------- runs ----------

  function Run(p: AuthPolicy, attempts: seq<Attempt>): Account {
    if attempts == [] then Account(0, None, None)
    else After(p, Run(p, attempts[..|attempts| - 1]), attempts[|attempts| - 1]).0
  }

  /** The clock does not go back. */
  ghost predicate Ordered(attempts: seq<Attempt>) {
    && (forall i :: 0 <= i < |attempts| ==> attempts[i].now <= attempts[i].later)
    && (forall i, j :: 0 <= i < j < |attempts| ==> attempts[i].later <= attempts[j].now)
  }

  ghost predicate Refused(p: AuthPolicy, attempts: seq<Attempt>, i: int)
    requires 0 <= i < |attempts|
  {
    BlockHolds(p, Run(p, attempts[..i]), attempts[i].now)
  }

  /** A login that was let in, or the first failure after a block ran out. */
  ghost predicate Restarts(p: AuthPolicy, attempts: seq<Attempt>, i: int)
    requires 0 <= i < |attempts|
  {
    !Refused(p, attempts, i) && (attempts[i].success || Run(p, attempts[..i]).blockedAt.Some?)
  }

  ghost predicate CountedFailure(p: AuthPolicy, attempts: seq<Attempt>, i: int)
    requires 0 <= i < |attempts|
  {
    !Refused(p, attempts, i) && !attempts[i].success
  }

  /** The failures that count: not refused, and not before the last restart. */
  ghost function Counted(p: AuthPolicy, attempts: seq<Attempt>): set<int> {
    set i | 0 <= i < |attempts| && CountedFailure(p, attempts, i)
            && forall j :: i < j < |attempts| ==> !Restarts(p, attempts, j)
  }

  /** In every run: an unblocked user is below the limit, a blocked one at it, and the counter is the
      number of failures that count. */
  lemma {:induction false} CounterCounts(p: AuthPolicy, attempts: seq<Attempt>)
    requires PolicySet(p) && p.limit >= 1
    ensures var u := Run(p, attempts);
            && 0 <= u.failed
            && (u.blockedAt.None? ==> u.failed < p.limit)
            && (u.blockedAt.Some? ==> u.failed == p.limit)
            && u.failed == |Counted(p, attempts)|
  {
    if attempts == [] {
      assert Counted(p, attempts) == {};
    } else {
      var n := |attempts| - 1;
      var init := attempts[..n];
      CounterCounts(p, init);
      CountedStep(p, attempts);
      assert n !in Counted(p, init);
      assert Run(p, attempts) == After(p, Run(p, init), attempts[n]).0;
      hide Run, Counted;
    }
  }

  lemma CountedStep(p: AuthPolicy, attempts: seq<Attempt>)
    requires attempts != []
    ensures var n := |attempts| - 1;
            Counted(p, attempts) ==
              (if Restarts(p, attempts, n) then {} else Counted(p, attempts[..n]))
              + (if CountedFailure(p, attempts, n) then {n} else {})
  {
    hide Run;
    var n := |attempts| - 1;
    var init := attempts[..n];
    forall i | 0 <= i < n
      ensures CountedFailure(p, init, i) == CountedFailure(p, attempts, i)
      ensures Restarts(p, init, i) == Restarts(p, attempts, i)
    {
      assert init[..i] == attempts[..i];
    }
    forall i ensures i in Counted(p, attempts) <==>
        (i == n && CountedFailure(p, attempts, n)) || (!Restarts(p, attempts, n) && i in Counted(p, init))
    {
    }
  }

  /** A user is newly blocked exactly by the failure that makes the limit. */
  lemma BlockedByLimitIff(p: AuthPolicy, attempts: seq<Attempt>, a: Attempt)
    requires PolicySet(p) && p.limit >= 1 && !BlockHolds(p, Run(p, attempts), a.now)
    ensures Run(p, attempts + [a]).blockedAt.Some? <==> !a.success && |Counted(p, attempts + [a])| == p.limit
    ensures Run(p, attempts + [a]).blockedAt.Some? ==> Run(p, attempts + [a]).blockedAt.value == a.later
  {
    assert (attempts + [a])[..|attempts|] == attempts;
    CounterCounts(p, attempts);
    CounterCounts(p, attempts + [a]);
    if a.success {
      assert Run(p, attempts + [a]).failed == 0;
    }
  }

  /** In every run an attempt is refused exactly while the user is blocked, or as the failure that makes
      the limit; anything else is let through to the password check. */
  lemma ForbiddenIff(p: AuthPolicy, attempts: seq<Attempt>, a: Attempt)
    requires PolicySet(p) && p.limit >= 1
    ensures After(p, Run(p, attempts), a).1 == Forbidden <==>
            || (Run(p, attempts).blockedAt.Some? && a.now <= Run(p, attempts).blockedAt.value + p.blockTime)
            || (!a.success && |Counted(p, attempts + [a])| == p.limit)
  {
    CounterCounts(p, attempts);
    CounterCounts(p, attempts + [a]);
    assert (attempts + [a])[..|attempts|] == attempts;
    hide Counted;
  }

  /** Without a limit or a block time everyone is let through and nothing is written. */
  lemma NoPolicyAllows(p: AuthPolicy, u: Account, a: Attempt)
    requires p.limit == 0 || p.blockTime == 0
    ensures After(p, u, a) == (u, Allowed)
  {
  }

  /** Once blocked, every attempt until the time is over leaves no trace; the last of any such
      attempts, and so each of them, is refused. */
  lemma {:induction false} BlockLasts(p: AuthPolicy, attempts: seq<Attempt>, more: seq<Attempt>)
    requires PolicySet(p) && Run(p, attempts).blockedAt.Some?
    requires forall i :: 0 <= i < |more| ==> more[i].now <= Run(p, attempts).blockedAt.value + p.blockTime
    ensures Run(p, attempts + more) == Run(p, attempts)
    ensures more != [] ==> Refused(p, attempts + more, |attempts| + |more| - 1)
    ensures more != [] ==> After(p, Run(p, attempts + more[..|more| - 1]), more[|more| - 1]).1 == Forbidden
    decreases |more|
  {
    if more == [] {
      assert attempts + more == attempts;
    } else {
      var n := |more| - 1;
      BlockLasts(p, attempts, more[..n]);
      assert (attempts + more)[..|attempts| + n] == attempts + more[..n];
    }
  }

  /** A block is never in the future, so on a clock that does not go back it starts when it was stored. */
  lemma {:induction false} BlockedInThePast(p: AuthPolicy, attempts: seq<Attempt>, now: int)
    requires Ordered(attempts) && forall i :: 0 <= i < |attempts| ==> attempts[i].later <= now
    ensures var u := Run(p, attempts);
            && (u.blockedAt.Some? ==> u.blockedAt.value <= now)
            && (u.lastFailedAt.Some? ==> u.lastFailedAt.value <= now)
  {
    if attempts != [] {
      BlockedInThePast(p, attempts[..|attempts| - 1], now);
    }
  }

  /** The time of the last failure decides nothing. */
  lemma LastFailureIsIdle(p: AuthPolicy, u: Account, a: Attempt, t: Option<int>)
    ensures var (v, r) := After(p, u, a);
            var (w, q) := After(p, u.(lastFailedAt := t), a);
            r == q && v.failed == w.failed && v.blockedAt == w.blockedAt
  {
  }
}
