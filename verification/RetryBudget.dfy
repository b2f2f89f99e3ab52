/** How `LockManager.acquire` splits one deadline over several attempts (pokerapp/lock_manager.py,
    `_calculate_attempt_timeout`, `_calculate_backoff_delay` and the attempt loop of `acquire`). */
module RetryBudget {

  /** `_calculate_attempt_timeout` */
  function AttemptTimeout(attempt: nat, total: nat, remaining: real): real {
    if remaining <= 0.0 then 0.0
    else if total <= 1 then remaining
    else
      var left := total - attempt;
      if left <= 0 then remaining
      else
        var share := remaining / left as real;
        if attempt == 0 then share * 0.3
        else if attempt == total - 1 then remaining
        else share * (0.5 + 0.5 * (attempt as real / (total - 1) as real))
  }

  function Min(a: real, b: real): real {
    if a < b then a else b
  }

  function Pow2(n: nat): real {
    if n == 0 then 1.0 else 2.0 * Pow2(n - 1)
  }

  /** `_calculate_backoff_delay`; `jitter` is the reading of `random.random()`. */
  function BackoffDelay(attempt: nat, jitter: real): real {
    if attempt == 0 then 0.0
    else
      var backoff := Min(0.1 * Pow2(attempt - 1), 2.0);
      backoff + backoff * 0.1 * jitter
  }

  lemma BackoffIsPositive(attempt: nat, jitter: real)
    requires 0.0 <= jitter < 1.0 && attempt > 0
    ensures 0.0 < BackoffDelay(attempt, jitter) < 2.2
  {
    PowersArePositive(attempt - 1);
    var backoff := Min(0.1 * Pow2(attempt - 1), 2.0);
    assert 0.0 <= backoff * 0.1 * jitter <= backoff * 0.1;
  }

  lemma PowersArePositive(n: nat)
    ensures Pow2(n) >= 1.0
  {
  }

  /** The slice of an attempt is positive and at most an equal share of what remains; all of it on the
      last attempt. */
  lemma SliceIsAShare(attempt: nat, total: nat, remaining: real)
    requires attempt < total && remaining > 0.0
    ensures 0.0 < AttemptTimeout(attempt, total, remaining) <= remaining / (total - attempt) as real
    ensures attempt == total - 1 && total > 1 ==> AttemptTimeout(attempt, total, remaining) == remaining
  {
    var share := remaining / (total - attempt) as real;
    DivPositive(remaining, (total - attempt) as real);
    if attempt == total - 1 {
      assert share == remaining;
    } else if attempt == 0 {
      ScaleDown(share, 0.3);
    } else {
      var progress := attempt as real / (total - 1) as real;
      FractionBelowOne(attempt as real, (total - 1) as real);
      var factor := 0.5 + 0.5 * progress;
      ScaleDown(share, factor);
      assert AttemptTimeout(attempt, total, remaining) == share * factor;
    }
  }

  lemma DivPositive(x: real, y: real)
    requires x > 0.0 && y > 0.0
    ensures x / y > 0.0 && (x / y) * y == x
  {
  }

  lemma FractionBelowOne(x: real, y: real)
    requires 0.0 < x < y
    ensures 0.0 < x / y < 1.0
  {
    DivPositive(x, y);
    if x / y >= 1.0 {
      ScaleUp(y, x / y);
    }
  }

  lemma ScaleUp(x: real, factor: real)
    requires x > 0.0 && factor >= 1.0
    ensures x * factor >= x
  {
  }

  lemma ScaleDown(x: real, factor: real)
    requires x > 0.0 && 0.0 < factor <= 1.0
    ensures 0.0 < x * factor <= x
  {
  }

  /** The environment of one attempt: how long until the lock is free, and the random jitter. */
  datatype Attempt = Attempt(delay: real, jitter: real)

  predicate Sane(env: seq<Attempt>) {
    forall i :: 0 <= i < |env| ==> env[i].delay >= 0.0 && 0.0 <= env[i].jitter < 1.0
  }

  /** One turn of the loop: the budget before it, its slice, the time it waited and the time it then slept. */
  datatype Round = Round(remaining: real, slice: real, used: real, backoff: real)

  function Spent(rounds: seq<Round>): real {
    if rounds == [] then 0.0
    else Spent(rounds[..|rounds| - 1]) + rounds[|rounds| - 1].used + rounds[|rounds| - 1].backoff
  }

  function Slept(rounds: seq<Round>): real {
    if rounds == [] then 0.0 else Slept(rounds[..|rounds| - 1]) + rounds[|rounds| - 1].backoff
  }

  /** `m` parts of size `part` each. */
  function Parts(part: real, m: nat): real {
    if m == 0 then 0.0 else part + Parts(part, m - 1)
  }

  lemma PartsMultiply(part: real, m: nat)
    ensures Parts(part, m) == part * m as real
  {
  }

  lemma PartsMonotonic(a: real, b: real, m: nat)
    requires a <= b
    ensures Parts(a, m) <= Parts(b, m)
  {
  }

  lemma NoPartsBelowZero(part: real, m: nat)
    requires part >= 0.0
    ensures Parts(part, m) >= 0.0
  {
  }

  /** Ways to choose the slice of an attempt and the pause after it. */
  type Slicing = (nat, nat, real) -> real
  type Pausing = (nat, real) -> real

  /** A slice so small that every attempt still to come could have as much; pauses are never negative. */
  ghost predicate Fair(slicing: Slicing, pausing: Pausing) {
    && (forall k: nat, total: nat, remaining: real :: k < total && remaining > 0.0 ==>
          0.0 <= slicing(k, total, remaining) && Parts(slicing(k, total, remaining), total - k) <= remaining)
    && (forall k: nat, jitter: real :: 0.0 <= jitter < 1.0 ==> 0.0 <= pausing(k, jitter))
  }

  /** The lock manager's own choices are fair. */
  lemma AdaptiveSlicesAreFair()
    ensures Fair(AttemptTimeout, BackoffDelay)
  {
    forall k: nat, total: nat, remaining: real | k < total && remaining > 0.0
      ensures 0.0 <= AttemptTimeout(k, total, remaining)
      ensures Parts(AttemptTimeout(k, total, remaining), total - k) <= remaining
    {
      SliceIsAShare(k, total, remaining);
      PartsMultiply(AttemptTimeout(k, total, remaining), total - k);
      UsedIsAShare(remaining, (total - k) as real, AttemptTimeout(k, total, remaining));
    }
    forall k: nat, jitter: real | 0.0 <= jitter < 1.0
      ensures 0.0 <= BackoffDelay(k, jitter)
    {
      if k > 0 {
        BackoffIsPositive(k, jitter);
      }
    }
  }

  /** What the environment makes of attempt `k`: `wait_for` gives up after the slice, and the pause before
      the next attempt is skipped when it would run past the deadline. */
  function RoundOf(
    slicing: Slicing, pausing: Pausing, k: nat, total: nat, remaining: real, e: Attempt): Round
  {
    var slice := slicing(k, total, remaining);
    if e.delay <= slice then Round(remaining, slice, e.delay, 0.0)
    else
      var pause := pausing(k + 1, e.jitter);
      Round(remaining, slice, slice, if k < total - 1 && remaining - slice - pause >= 0.0 then pause else 0.0)
  }

  predicate Got(e: Attempt, r: Round) {
    e.delay <= r.slice
  }

  /** `rounds` is what the loop does within `budget` when the environment is `env`. */
  ghost predicate History(slicing: Slicing, pausing: Pausing, budget: real, env: seq<Attempt>, rounds: seq<Round>) {
    rounds == [] ||
    var last := |rounds| - 1;
    && last < |env|
    && History(slicing, pausing, budget, env, rounds[..last])
    && (last > 0 ==> !Got(env[last - 1], rounds[last - 1]))
    && budget - Spent(rounds[..last]) > 0.0
    && rounds[last] == RoundOf(slicing, pausing, last, |env|, budget - Spent(rounds[..last]), env[last])
  }

  lemma OneRoundMore(slicing: Slicing, pausing: Pausing, budget: real, env: seq<Attempt>, rounds: seq<Round>, r: Round)
    requires History(slicing, pausing, budget, env, rounds) && |rounds| < |env| && budget - Spent(rounds) > 0.0
    requires rounds != [] ==> !Got(env[|rounds| - 1], rounds[|rounds| - 1])
    requires r == RoundOf(slicing, pausing, |rounds|, |env|, budget - Spent(rounds), env[|rounds|])
    ensures History(slicing, pausing, budget, env, rounds + [r])
    ensures Spent(rounds + [r]) == Spent(rounds) + r.used + r.backoff
  {
    assert (rounds + [r])[..|rounds|] == rounds;
  }

  /** The attempt loop of `acquire` with a deadline `budget` seconds away. */
  method AttemptLoop(slicing: Slicing, pausing: Pausing, budget: real, env: seq<Attempt>)
    returns (acquired: bool, rounds: seq<Round>)
    ensures History(slicing, pausing, budget, env, rounds)
    ensures acquired <==> rounds != [] && Got(env[|rounds| - 1], rounds[|rounds| - 1])
    ensures !acquired ==> |rounds| == |env| || budget - Spent(rounds) <= 0.0
  {
    rounds, acquired := [], false;
    var remaining := budget;
    for attempt := 0 to |env|
      invariant |rounds| == attempt && !acquired
      invariant History(slicing, pausing, budget, env, rounds)
      invariant remaining == budget - Spent(rounds)
      invariant rounds != [] ==> !Got(env[attempt - 1], rounds[attempt - 1])
    {
      if remaining <= 0.0 {
        break;
      }
      var slice := slicing(attempt, |env|, remaining);
      var used, slept := slice, 0.0;
      acquired := env[attempt].delay <= slice;
      if acquired {
        used := env[attempt].delay;
      } else if attempt < |env| - 1 {
        var pause := pausing(attempt + 1, env[attempt].jitter);
        if remaining - used - pause >= 0.0 {
          slept := pause;
        }
      }
      OneRoundMore(slicing, pausing, budget, env, rounds, Round(remaining, slice, used, slept));
      rounds := rounds + [Round(remaining, slice, used, slept)];
      if acquired {
        break;
      }
      remaining := remaining - used - slept;
    }
  }

  lemma {:induction false} NothingWithoutBudget(slicing: Slicing, pausing: Pausing,
                                                budget: real, env: seq<Attempt>, rounds: seq<Round>)
    requires History(slicing, pausing, budget, env, rounds) && budget <= 0.0
    ensures rounds == []
  {
    if rounds != [] {
      NothingWithoutBudget(slicing, pausing, budget, env, rounds[..|rounds| - 1]);
    }
  }

  /** `acquire` with its own formulas: it never overruns a budget it was given, and gives up early only if
      a pause used up exactly what was left. */
  method Acquire(budget: real, env: seq<Attempt>) returns (acquired: bool, rounds: seq<Round>)
    requires Sane(env)
    ensures History(AttemptTimeout, BackoffDelay, budget, env, rounds)
    ensures acquired <==> rounds != [] && Got(env[|rounds| - 1], rounds[|rounds| - 1])
    ensures budget <= 0.0 ==> rounds == []
    ensures budget >= 0.0 ==> 0.0 <= Spent(rounds) <= budget
    ensures budget >= 0.0 && !acquired && |rounds| < |env| ==> Spent(rounds) == budget
    ensures budget >= 0.0 ==>
              forall part :: Parts(part, |env|) == budget ==>
                budget - Spent(rounds) >= Parts(part, |env| - |rounds|) - Slept(rounds)
  {
    acquired, rounds := AttemptLoop(AttemptTimeout, BackoffDelay, budget, env);
    AdaptiveSlicesAreFair();
    if budget <= 0.0 {
      NothingWithoutBudget(AttemptTimeout, BackoffDelay, budget, env, rounds);
    }
    if budget >= 0.0 {
      BudgetHolds(AttemptTimeout, BackoffDelay, budget, env, rounds);
    }
    forall part | Parts(part, |env|) == budget && budget >= 0.0
      ensures budget - Spent(rounds) >= Parts(part, |env| - |rounds|) - Slept(rounds)
    {
      EveryAttemptKeepsItsShare(AttemptTimeout, BackoffDelay, budget, env, rounds, part);
    }
  }

  /** The time spent in attempts and pauses never exceeds the budget. */
  lemma {:induction false} BudgetHolds(slicing: Slicing, pausing: Pausing,
                                       budget: real, env: seq<Attempt>, rounds: seq<Round>)
    requires Fair(slicing, pausing) && Sane(env) && History(slicing, pausing, budget, env, rounds) && budget >= 0.0
    ensures 0.0 <= Slept(rounds) <= Spent(rounds) <= budget
  {
    if rounds != [] {
      var last := |rounds| - 1;
      BudgetHolds(slicing, pausing, budget, env, rounds[..last]);
      RoundFits(slicing, pausing, last, |env|, budget - Spent(rounds[..last]), env[last]);
    }
  }

  lemma RoundFits(slicing: Slicing, pausing: Pausing, k: nat, total: nat, remaining: real, e: Attempt)
    requires Fair(slicing, pausing) && k < total && remaining > 0.0 && e.delay >= 0.0 && 0.0 <= e.jitter < 1.0
    ensures var r := RoundOf(slicing, pausing, k, total, remaining, e);
            && 0.0 <= r.used <= r.slice
            && Parts(r.used, total - k) <= remaining
            && r.backoff >= 0.0
            && r.used + r.backoff <= remaining
            && (total - k > 1 ==> r.used < remaining)
  {
    var r := RoundOf(slicing, pausing, k, total, remaining, e);
    PartsMonotonic(r.used, r.slice, total - k);
    NoPartsBelowZero(r.slice, total - k - 1);
    if total - k > 1 {
      NoPartsBelowZero(r.slice, total - k - 2);
    }
  }

  lemma UsedIsAShare(x: real, parts: real, used: real)
    requires x > 0.0 && parts >= 1.0 && 0.0 <= used <= x / parts
    ensures used * parts <= x
  {
    DivPositive(x, parts);
    MulMonotonic(used, x / parts, parts);
  }

  lemma MulMonotonic(a: real, b: real, c: real)
    requires a <= b && c >= 0.0
    ensures a * c <= b * c
  {
  }

  /** Cut the budget into |env| equal parts: after k failed attempts at least |env| - k parts are left, less
      the pauses taken so far; without pauses the last attempt still has a full part. */
  lemma {:induction false} EveryAttemptKeepsItsShare(slicing: Slicing, pausing: Pausing, budget: real,
                                                     env: seq<Attempt>, rounds: seq<Round>, part: real)
    requires Fair(slicing, pausing) && Sane(env) && History(slicing, pausing, budget, env, rounds)
    requires budget >= 0.0 && Parts(part, |env|) == budget
    ensures |rounds| <= |env|
    ensures budget - Spent(rounds) >= Parts(part, |env| - |rounds|) - Slept(rounds)
  {
    if rounds != [] {
      var last := |rounds| - 1;
      EveryAttemptKeepsItsShare(slicing, pausing, budget, env, rounds[..last], part);
      BudgetHolds(slicing, pausing, budget, env, rounds[..last]);
      var remaining := budget - Spent(rounds[..last]);
      RoundFits(slicing, pausing, last, |env|, remaining, env[last]);
      ShareIsKept(part, remaining, |env| - last, Slept(rounds[..last]), rounds[last].used);
    }
  }

  /** Spending at most an equal share leaves every later attempt its part. */
  lemma ShareIsKept(part: real, remaining: real, left: nat, slept: real, used: real)
    requires left >= 1 && slept >= 0.0
    requires remaining >= Parts(part, left) - slept
    requires Parts(used, left) <= remaining
    ensures remaining - used >= Parts(part, left - 1) - slept
  {
    if used > part {
      PartsMonotonic(part, used, left - 1);
    }
  }

  /** With a positive budget a failed acquisition used all its attempts, or spent the budget to the last
      moment in a pause. */
  lemma GivesUpOnlyWhenSpent(slicing: Slicing, pausing: Pausing, budget: real, env: seq<Attempt>, rounds: seq<Round>)
    requires Fair(slicing, pausing) && Sane(env) && History(slicing, pausing, budget, env, rounds)
    requires budget > 0.0 && |rounds| < |env| && budget - Spent(rounds) <= 0.0
    ensures rounds != [] && rounds[|rounds| - 1].backoff > 0.0 && Spent(rounds) == budget
  {
    BudgetHolds(slicing, pausing, budget, env, rounds);
    var k := |rounds| - 1;
    RoundFits(slicing, pausing, k, |env|, budget - Spent(rounds[..k]), env[k]);
  }

  /** The pauses of the source: a tenth of a second before the first retry, twice as long before every further one, but
      never more than two seconds, and up to a tenth longer by chance. There is none before the first attempt. */
  lemma PausesDouble(n: nat, jitter: real)
    requires n >= 1
    ensures BackoffDelay(0, jitter) == 0.0 && BackoffDelay(1, 0.0) == 0.1
    ensures var next := BackoffDelay(n + 1, 0.0);
            next == if 2.0 * BackoffDelay(n, 0.0) < 2.0 then 2.0 * BackoffDelay(n, 0.0) else 2.0
    ensures BackoffDelay(n, jitter) - BackoffDelay(n, 0.0) == BackoffDelay(n, 0.0) * 0.1 * jitter
  {
    PowersArePositive(n - 1);
  }

  /** The slices of the source: three tenths of an equal share for the first of several attempts, a half of it and more
      for those after it, the later the more, up to all that is left for the last. */
  lemma SlicesGrow(attempt: nat, total: nat, remaining: real)
    requires attempt < total && remaining > 0.0
    ensures var share, slice := remaining / (total - attempt) as real, AttemptTimeout(attempt, total, remaining);
            && (total == 1 ==> slice == remaining)
            && (attempt == 0 && total > 1 ==> slice == share * 0.3)
            && (0 < attempt < total - 1 ==>
                  slice - share * 0.5 == share * (0.5 * (attempt as real / (total - 1) as real)))
            && (attempt == total - 1 ==> slice == remaining)
  {
    if 0 < attempt < total - 1 {
      var share, progress := remaining / (total - attempt) as real, attempt as real / (total - 1) as real;
      assert AttemptTimeout(attempt, total, remaining) == share * (0.5 + 0.5 * progress);
      assert share * (0.5 + 0.5 * progress) == share * 0.5 + share * (0.5 * progress);
    }
  }

  /** What happens in a run of attempts. All but the last one fail. An attempt that finds the lock free within its slice
      takes it then and there; one that fails has used its slice up and pauses as long as `pausing` says, if another
      attempt is to come and the pause ends before the deadline. */
  lemma {:induction false} AttemptsMeanWhatTheySay(slicing: Slicing, pausing: Pausing, budget: real,
                                                   env: seq<Attempt>, rounds: seq<Round>, k: nat)
    requires History(slicing, pausing, budget, env, rounds) && k < |rounds|
    ensures |rounds| <= |env|
    ensures var remaining := budget - Spent(rounds[..k]);
            var slice, r := slicing(k, |env|, remaining), rounds[k];
            var pause := pausing(k + 1, env[k].jitter);
            && remaining > 0.0
            && (k < |rounds| - 1 ==> env[k].delay > slice)
            && (env[k].delay <= slice ==> r.used == env[k].delay && r.backoff == 0.0)
            && (env[k].delay > slice ==>
                  && r.used == slice
                  && r.backoff == if k + 1 < |env| && pause <= remaining - slice then pause else 0.0)
            && (Got(env[k], r) <==> env[k].delay <= slice)
  {
    var last := |rounds| - 1;
    if k < last {
      AttemptsMeanWhatTheySay(slicing, pausing, budget, env, rounds[..last], k);
      assert rounds[..last][..k] == rounds[..k];
      if k == last - 1 {
        assert !Got(env[last - 1], rounds[last - 1]);
      }
    }
  }
}
