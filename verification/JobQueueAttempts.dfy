// When a job is attempted more often than its configured maximum.
module JobQueueAttempts {
  import opened Wrappers
  import opened StringOrder
  import opened IsoTime
  import opened JobQueue
  import opened JobQueueRuns

  predicate Over(s: State, i: nat) { i < |s.jobs| && s.jobs[i].attempt > s.jobs[i].maxAttempts }

  // The job has no attempt left and waits, or is in its last one.
  predicate WaitsSpent(s: State, i: nat) {
    i < |s.jobs| && s.jobs[i].status.Pending? && s.jobs[i].attempt >= s.jobs[i].maxAttempts
  }

  predicate RunsSpent(s: State, i: nat) {
    i < |s.jobs| && s.jobs[i].status.Running? && s.jobs[i].attempt >= s.jobs[i].maxAttempts
  }

  predicate IsClaimOf(step: Step, i: nat) { step.ClaimJob? && step.id == i }

  // Some restart of the run finds the job running with no attempt left, and the job is claimed later on.
  ghost predicate ReclaimedWhenSpent(c: Config, s: State, steps: seq<Step>, i: nat)
    requires LegalRun(c, s, steps)
    decreases |steps|
  {
    steps != [] &&
      ((steps[0].Restart? && RunsSpent(s, i) && Claims(steps[1..], i))
       || ReclaimedWhenSpent(c, Next(c, s, steps[0]), steps[1..], i))
  }

  lemma ClaimsCons(steps: seq<Step>, i: nat)
    requires steps != []
    ensures Claims(steps, i) <==> IsClaimOf(steps[0], i) || Claims(steps[1..], i)
  {
    if Claims(steps[1..], i) {
      var k :| 0 <= k < |steps[1..]| && IsClaimOf(steps[1..][k], i);
      assert IsClaimOf(steps[k + 1], i);
    }
    if Claims(steps, i) {
      var k :| 0 <= k < |steps| && IsClaimOf(steps[k], i);
      if k > 0 { assert IsClaimOf(steps[1..][k - 1], i); }
    }
  }

  ghost predicate Spends(s: State, step: Step, s': State, i: nat) {
    && (Over(s', i) <==> Over(s, i) || (IsClaimOf(step, i) && WaitsSpent(s, i)))
    && (WaitsSpent(s', i) <==> (WaitsSpent(s, i) && !IsClaimOf(step, i)) || (step.Restart? && RunsSpent(s, i)))
  }

  lemma SettledRowSpends(j: Job, cap: nat, attempt: nat, outcome: Outcome, now: nat)
    requires attempt >= 1 && attempt == j.attempt && j.status.Running?
    requires InRange(now) && InRange(now + 60 * Backoff(cap, attempt))
    ensures var j' := SettledRow(j, cap, attempt, j.maxAttempts, outcome, now);
            && j'.attempt == j.attempt && j'.maxAttempts == j.maxAttempts
            && (j'.status.Pending? ==> j.attempt < j.maxAttempts)
  {
  }

  lemma FinishSpends(c: Config, s: State, step: Step, i: nat)
    requires Inv(c, s) && Enabled(c, s, step) && step.Finish?
    ensures Spends(s, step, Next(c, s, step), i)
  {
    var k := s.workers[step.worker];
    assert ClaimOk(s, k);
    SettledRowSpends(s.jobs[k.id], c.maxBackoffMinutes, k.attempt.value, step.outcome, step.now);
    FinishParts(c, s, step);
    if i != k.id { assert i < |s.jobs| ==> Next(c, s, step).jobs[i] == s.jobs[i]; }
  }

  lemma EnqueueSpends(c: Config, s: State, step: Step, i: nat)
    requires Enabled(c, s, step) && step.Enqueue?
    ensures Spends(s, step, Next(c, s, step), i)
  {
  }

  lemma ClaimSpends(c: Config, s: State, step: Step, i: nat)
    requires Enabled(c, s, step) && step.ClaimJob?
    ensures Spends(s, step, Next(c, s, step), i)
  {
  }

  // Only a claim raises the attempt, and only a restart lets a spent job wait again.
  lemma StepSpends(c: Config, s: State, step: Step, i: nat)
    requires Inv(c, s) && Enabled(c, s, step)
    ensures Spends(s, step, Next(c, s, step), i)
  {
    match step
    case Enqueue(_, _, _, _) => EnqueueSpends(c, s, step, i);
    case ClaimJob(_, _, _) => ClaimSpends(c, s, step, i);
    case Reload(_) =>
    case Finish(_, _, _) => FinishSpends(c, s, step, i);
    case Restart =>
  }

  lemma {:induction false} ExceedsFrom(c: Config, s: State, steps: seq<Step>, i: nat)
    requires Inv(c, s) && LegalRun(c, s, steps)
    ensures Over(Run(c, s, steps), i) <==>
              Over(s, i) || (WaitsSpent(s, i) && Claims(steps, i)) || ReclaimedWhenSpent(c, s, steps, i)
    decreases |steps|
  {
    if steps != [] {
      StepKeeps(c, s, steps[0]);
      StepSpends(c, s, steps[0], i);
      ClaimsCons(steps, i);
      ExceedsFrom(c, Next(c, s, steps[0]), steps[1..], i);
    }
  }

  // A job ends up attempted more often than its maximum if and only if a restart found it running in its
  // last attempt and it was claimed again after that.
  lemma AttemptsExceedIff(c: Config, steps: seq<Step>, i: nat)
    requires LegalRun(c, EMPTY, steps)
    ensures Over(Run(c, EMPTY, steps), i) <==> ReclaimedWhenSpent(c, EMPTY, steps, i)
  {
    ExceedsFrom(c, EMPTY, steps, i);
  }

  // ---------------------------------------------------------------- the bound is reached

  // The steps can be taken from s and lead to s'.
  predicate Leads(c: Config, s: State, steps: seq<Step>, s': State) {
    LegalRun(c, s, steps) && Run(c, s, steps) == s'
  }

  lemma LeadsByOne(c: Config, s: State, step: Step)
    requires Enabled(c, s, step)
    ensures Leads(c, s, [step], Next(c, s, step))
  {
    assert [step][1..] == [];
  }

  lemma {:induction false} LeadsOn(c: Config, s: State, a: seq<Step>, m: State, b: seq<Step>, e: State)
    requires Leads(c, s, a, m) && Leads(c, m, b, e)
    ensures Leads(c, s, a + b, e)
    decreases |a|
  {
    if a == [] {
      assert a + b == b;
    } else {
      assert (a + b)[1..] == a[1..] + b;
      LeadsOn(c, Next(c, s, a[0]), a[1..], m, b, e);
    }
  }

  // One job, waiting, due by t, with so many resets and minutes of backoff behind it.
  predicate One(s: State, maximum: int, attempt: int, resets: nat, spent: nat, t: nat) {
    && |s.jobs| == 1 && |s.history| == 1 && s.workers == map[]
    && s.jobs[0].status.Pending? && s.jobs[0].maxAttempts == maximum && s.jobs[0].attempt == attempt
    && s.history[0].resets == resets && s.history[0].backoff == spent && s.history[0].due <= t
    && InRange(s.history[0].due) && s.jobs[0].nextAttemptAt == Some(Iso(s.history[0].due))
  }

  // The same job claimed, its attempt not yet or already read back.
  predicate Claimed(s: State, maximum: int, attempt: int, resets: nat, spent: nat, t: nat, reloaded: bool) {
    && |s.jobs| == 1 && |s.history| == 1 && s.workers.Keys == {0}
    && s.jobs[0].status.Running? && s.jobs[0].maxAttempts == maximum && s.jobs[0].attempt == attempt
    && s.history[0].resets == resets && s.history[0].backoff == spent && s.history[0].due <= t
    && InRange(s.history[0].due) && s.jobs[0].nextAttemptAt == Some(Iso(s.history[0].due))
    && s.workers[0].id == 0 && s.workers[0].snapshot.maxAttempts == maximum
    && s.workers[0].attempt == if reloaded then Some(attempt) else None
  }

  lemma CanClaim(c: Config, s: State, maximum: int, attempt: int, resets: nat, spent: nat, t: nat)
    requires One(s, maximum, attempt, resets, spent, t) && InRange(t)
    ensures Enabled(c, s, ClaimJob(0, 0, t))
  {
    IsoOrder(s.history[0].due, t);
    LexTotal(s.jobs[0].createdAt, s.jobs[0].createdAt);
  }

  lemma ClaimOnce(c: Config, s: State, maximum: int, attempt: int, resets: nat, spent: nat, t: nat) returns (s': State)
    requires One(s, maximum, attempt, resets, spent, t) && InRange(t)
    ensures Leads(c, s, [ClaimJob(0, 0, t)], s') && Claimed(s', maximum, attempt + 1, resets, spent, t, false)
  {
    CanClaim(c, s, maximum, attempt, resets, spent, t);
    s' := Next(c, s, ClaimJob(0, 0, t));
    LeadsByOne(c, s, ClaimJob(0, 0, t));
  }

  lemma ResetOnce(c: Config, s: State, maximum: int, attempt: int, resets: nat, spent: nat, t: nat) returns (s': State)
    requires Claimed(s, maximum, attempt, resets, spent, t, false)
    ensures Leads(c, s, [Restart], s') && One(s', maximum, attempt, resets + 1, spent, t)
  {
    s' := Next(c, s, Restart);
    LeadsByOne(c, s, Restart);
  }

  lemma ReloadOnce(c: Config, s: State, maximum: int, attempt: int, resets: nat, spent: nat, t: nat) returns (s': State)
    requires Claimed(s, maximum, attempt, resets, spent, t, false)
    ensures Leads(c, s, [Reload(0)], s') && Claimed(s', maximum, attempt, resets, spent, t, true)
  {
    s' := Next(c, s, Reload(0));
    LeadsByOne(c, s, Reload(0));
  }

  lemma CanFail(c: Config, s: State, maximum: int, attempt: nat, resets: nat, spent: nat, t: nat, later: nat)
    requires Claimed(s, maximum, attempt, resets, spent, t, true) && attempt >= 1
    requires InRange(t) && InRange(later) && later == t + 60 * c.maxBackoffMinutes
    ensures Enabled(c, s, Finish(0, Errored(""), t)) && InRange(t + 60 * Backoff(c.maxBackoffMinutes, attempt))
  {
    EarlierInRange(t + 60 * Backoff(c.maxBackoffMinutes, attempt), later);
  }

  lemma FailedRow(j: Job, h: History, cap: nat, attempt: nat, t: nat, later: nat)
    requires 1 <= attempt < j.maxAttempts && later == t + 60 * cap
    requires InRange(t) && InRange(t + 60 * Backoff(cap, attempt))
    ensures var j', h' := SettledRow(j, cap, attempt, j.maxAttempts, Errored(""), t),
                          SettledHistory(h, cap, attempt, j.maxAttempts, Errored(""), t);
            && j'.status.Pending? && j'.maxAttempts == j.maxAttempts && j'.attempt == j.attempt
            && h'.resets == h.resets && h'.backoff == h.backoff + Backoff(cap, attempt) && h'.due <= later
            && InRange(h'.due) && j'.nextAttemptAt == Some(Iso(h'.due))
  {
    RetryIsRetryRow(cap, j, h, attempt, Errored(""), t);
  }

  lemma FailOnce(c: Config, s: State, maximum: int, attempt: nat, resets: nat, spent: nat, t: nat, later: nat)
      returns (s': State)
    requires Claimed(s, maximum, attempt, resets, spent, t, true) && 1 <= attempt < maximum
    requires InRange(t) && InRange(later) && later == t + 60 * c.maxBackoffMinutes
    ensures Leads(c, s, [Finish(0, Errored(""), t)], s')
    ensures One(s', maximum, attempt, resets, spent + Backoff(c.maxBackoffMinutes, attempt), later)
  {
    var step := Finish(0, Errored(""), t);
    CanFail(c, s, maximum, attempt, resets, spent, t, later);
    FailedRow(s.jobs[0], s.history[0], c.maxBackoffMinutes, attempt, t, later);
    FailedState(c, s, maximum, attempt, resets, spent, t);
    s' := Next(c, s, step);
    LeadsByOne(c, s, step);
  }

  lemma FailedState(c: Config, s: State, maximum: int, attempt: nat, resets: nat, spent: nat, t: nat)
    requires attempt >= 1 && InRange(t) && InRange(t + 60 * Backoff(c.maxBackoffMinutes, attempt))
    requires Claimed(s, maximum, attempt, resets, spent, t, true)
    requires Enabled(c, s, Finish(0, Errored(""), t))
    ensures var s' := Next(c, s, Finish(0, Errored(""), t));
            && s'.workers == map[] && |s'.jobs| == 1 && |s'.history| == 1
            && s'.jobs[0] == SettledRow(s.jobs[0], c.maxBackoffMinutes, attempt, maximum, Errored(""), t)
            && s'.history[0] == SettledHistory(s.history[0], c.maxBackoffMinutes, attempt, maximum, Errored(""), t)
  {
  }

  predicate Reaches(s: State, maximum: int, attempt: int, resets: nat, spent: nat) {
    && |s.jobs| == 1 && |s.history| == 1 && s.jobs[0].maxAttempts == maximum
    && s.jobs[0].attempt == attempt && s.history[0].resets == resets && s.history[0].backoff == spent
  }

  lemma {:induction false} ResetAgain(c: Config, s: State, maximum: int, attempt: int, resets: nat, spent: nat, t: nat,
      n: nat)
    returns (steps: seq<Step>, e: State)
    requires One(s, maximum, attempt, resets, spent, t) && InRange(t)
    ensures Leads(c, s, steps, e) && Reaches(e, maximum, attempt + n + 1, resets + n, spent)
    decreases n
  {
    var claimed := ClaimOnce(c, s, maximum, attempt, resets, spent, t);
    if n == 0 {
      steps, e := [ClaimJob(0, 0, t)], claimed;
    } else {
      var s' := ResetOnce(c, claimed, maximum, attempt + 1, resets, spent, t);
      LeadsOn(c, s, [ClaimJob(0, 0, t)], claimed, [Restart], s');
      var rest;
      rest, e := ResetAgain(c, s', maximum, attempt + 1, resets + 1, spent, t, n - 1);
      LeadsOn(c, s, [ClaimJob(0, 0, t)] + [Restart], s', rest, e);
      steps := ([ClaimJob(0, 0, t)] + [Restart]) + rest;
    }
  }

  lemma TryOnce(c: Config, s: State, maximum: int, attempt: nat, spent: nat, t: nat, later: nat)
      returns (steps: seq<Step>, s': State)
    requires One(s, maximum, attempt, 0, spent, t) && attempt + 1 < maximum
    requires InRange(t) && InRange(later) && later == t + 60 * c.maxBackoffMinutes
    ensures Leads(c, s, steps, s')
    ensures One(s', maximum, attempt + 1, 0, spent + Backoff(c.maxBackoffMinutes, attempt + 1), later)
  {
    var taken := ClaimOnce(c, s, maximum, attempt, 0, spent, t);
    var reloaded := ReloadOnce(c, taken, maximum, attempt + 1, 0, spent, t);
    s' := FailOnce(c, reloaded, maximum, attempt + 1, 0, spent, t, later);
    LeadsOn(c, s, [ClaimJob(0, 0, t)], taken, [Reload(0)], reloaded);
    LeadsOn(c, s, [ClaimJob(0, 0, t)] + [Reload(0)], reloaded, [Finish(0, Errored(""), t)], s');
    steps := ([ClaimJob(0, 0, t)] + [Reload(0)]) + [Finish(0, Errored(""), t)];
  }

  // From t on, n waiting times stay within the calendar.
  predicate Fits(c: Config, t: nat, n: nat)
    decreases n
  {
    InRange(t) && (n > 0 ==> Fits(c, t + 60 * c.maxBackoffMinutes, n - 1))
  }

  lemma {:induction false} FitsBefore(c: Config, t: nat, n: nat, last: nat)
    requires InRange(last) && t + n * (60 * c.maxBackoffMinutes) <= last
    ensures Fits(c, t, n)
    decreases n
  {
    EarlierInRange(t, last);
    if n > 0 {
      var pause := 60 * c.maxBackoffMinutes;
      assert n * pause == (n - 1) * pause + pause;
      FitsBefore(c, t + pause, n - 1, last);
    }
  }

  lemma {:induction false} FailAgain(c: Config, s: State, maximum: int, attempt: nat, spent: nat, t: nat, fails: nat,
      n: nat)
    returns (steps: seq<Step>, e: State)
    requires One(s, maximum, attempt, 0, spent, t) && attempt + fails + 1 == maximum && Fits(c, t, fails)
    ensures Leads(c, s, steps, e)
    ensures Reaches(e, maximum, maximum + n, n, spent + Later(c.maxBackoffMinutes, attempt, fails))
    decreases fails
  {
    if fails == 0 {
      steps, e := ResetAgain(c, s, maximum, attempt, 0, spent, t, n);
    } else {
      var later := t + 60 * c.maxBackoffMinutes;
      var first, s' := TryOnce(c, s, maximum, attempt, spent, t, later);
      var rest;
      rest, e := FailAgain(c, s', maximum, attempt + 1, spent + Backoff(c.maxBackoffMinutes, attempt + 1), later,
          fails - 1, n);
      LeadsOn(c, s, first, s', rest, e);
      steps := first + rest;
    }
  }

  // Backoff of the failures behind the first `attempt` ones.
  function Later(cap: nat, attempt: nat, fails: nat): nat
    decreases fails
  {
    if fails == 0 then 0 else Backoff(cap, attempt + 1) + Later(cap, attempt + 1, fails - 1)
  }

  lemma {:induction false} LaterIsBudget(cap: nat, attempt: nat, fails: nat)
    ensures Budget(cap, attempt) + Later(cap, attempt, fails) == Budget(cap, attempt + fails)
    decreases fails
  {
    if fails > 0 { LaterIsBudget(cap, attempt + 1, fails - 1); }
  }

  lemma Enqueued(c: Config, enqueue: Step) returns (s: State)
    requires enqueue.Enqueue? && enqueue.maxAttempts.Some? && enqueue.maxAttempts.value >= 1 && enqueue.now == 0
        && InRange(0)
    ensures Leads(c, EMPTY, [enqueue], s) && One(s, enqueue.maxAttempts.value, 0, 0, 0, 0)
  {
    s := Next(c, EMPTY, enqueue);
    LeadsByOne(c, EMPTY, enqueue);
  }

  lemma ReachedFrom(c: Config, enqueue: Step, maximum: nat, resets: nat) returns (steps: seq<Step>, e: State)
    requires enqueue.Enqueue? && enqueue.maxAttempts == Some(maximum) && enqueue.now == 0 && InRange(0)
    requires maximum >= 1 && Fits(c, 0, maximum - 1)
    ensures Leads(c, EMPTY, steps, e)
    ensures Reaches(e, maximum, maximum + resets, resets, Later(c.maxBackoffMinutes, 0, maximum - 1))
  {
    var s := Enqueued(c, enqueue);
    var rest;
    rest, e := FailAgain(c, s, maximum, 0, 0, 0, maximum - 1, resets);
    LeadsOn(c, EMPTY, [enqueue], s, rest, e);
    steps := [enqueue] + rest;
  }

  // For every maximum and every number of resets some run attempts a job exactly that much more often than
  // its maximum, and has scheduled the whole budget of backoff in between, as long as the waiting times fit into the
  // calendar.
  lemma BoundIsReached(c: Config, kind: string, payload: string, maximum: nat, resets: nat) returns (steps: seq<Step>)
    requires maximum >= 1 && InRange((maximum - 1) * (60 * c.maxBackoffMinutes))
    ensures LegalRun(c, EMPTY, steps)
    ensures Reaches(Run(c, EMPTY, steps), maximum, maximum + resets, resets,
                    Budget(c.maxBackoffMinutes, maximum - 1))
  {
    FitsBefore(c, 0, maximum - 1, (maximum - 1) * (60 * c.maxBackoffMinutes));
    var e;
    steps, e := ReachedFrom(c, Enqueue(kind, payload, Some(maximum), 0), maximum, resets);
    LaterIsBudget(c.maxBackoffMinutes, 0, maximum - 1);
  }

  // The doubled minutes 1, 2, 4, ... of a limit they stay below add up to one less than the next of them.
  lemma {:induction false} BudgetOf(cap: nat, w: seq<nat>, n: nat)
    requires Doubling(w) && n < |w| && (n > 0 ==> w[n - 1] <= cap)
    ensures Budget(cap, n) + 1 == w[n]
  {
    if n > 0 {
      BudgetOf(cap, w, n - 1);
      BackoffIs(cap, n, w);
    }
  }

  // Under a limit that no wait meets, the failures of a job with m attempts schedule exactly 2^(m-1) - 1 minutes in
  // some run; under a limit of at most a minute m - 1 times the limit.
  lemma BackoffIsReached(c: Config, kind: string, payload: string, maximum: nat, w: seq<nat>) returns (steps: seq<Step>)
    requires maximum >= 1 && InRange((maximum - 1) * (60 * c.maxBackoffMinutes))
    requires Doubling(w) && maximum <= |w|
    ensures LegalRun(c, EMPTY, steps) && |Run(c, EMPTY, steps).history| == 1
    ensures maximum == 1 || w[maximum - 2] <= c.maxBackoffMinutes ==>
              Run(c, EMPTY, steps).history[0].backoff + 1 == w[maximum - 1]
    ensures c.maxBackoffMinutes <= 1 ==>
              Run(c, EMPTY, steps).history[0].backoff == (maximum - 1) * c.maxBackoffMinutes
  {
    steps := BoundIsReached(c, kind, payload, maximum, 0);
    if maximum == 1 || w[maximum - 2] <= c.maxBackoffMinutes { BudgetOf(c.maxBackoffMinutes, w, maximum - 1); }
    if c.maxBackoffMinutes <= 1 { SmallBudget(c.maxBackoffMinutes, maximum - 1); }
  }

  lemma {:induction false} SmallBudget(cap: nat, n: nat)
    requires cap <= 1
    ensures Budget(cap, n) == n * cap
  {
    if n > 0 { SmallBudget(cap, n - 1); }
  }
}
