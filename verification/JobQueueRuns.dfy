// Every interleaving of enqueues, workers and process restarts of the job queue.
module JobQueueRuns {
  import opened Wrappers
  import opened StringOrder
  import opened IsoTime
  import opened JobQueue

  // A worker between its claim and the end of its handler. `attempt` is what it reloaded, if it did.
  datatype Claim = Claim(id: nat, snapshot: Job, attempt: Option<int>)

  // What a job has been through: orphan resets, minutes of backoff scheduled, and the time it is due.
  datatype History = History(resets: nat, backoff: nat, due: nat)

  datatype State = State(jobs: seq<Job>, workers: map<nat, Claim>, history: seq<History>)

  datatype Config = Config(defaultMaxAttempts: int, maxBackoffMinutes: nat)

  const EMPTY := State([], map[], [])

  datatype Step =
    | Enqueue(kind: string, payload: string, maxAttempts: Option<int>, now: nat)
    | ClaimJob(worker: nat, id: nat, now: nat)
    | Reload(worker: nat)
    | Finish(worker: nat, outcome: Outcome, now: nat)
    | Restart

  predicate Ready(c: Claim) { c.attempt.Some? && c.attempt.value >= 1 }

  predicate Enabled(c: Config, s: State, step: Step) {
    |s.history| == |s.jobs| &&
    match step
    case Enqueue(_, _, _, now) => InRange(now)
    case ClaimJob(w, id, now) => w !in s.workers && InRange(now) && OldestEligible(s.jobs, Iso(now), id)
    case Reload(w) => w in s.workers && s.workers[w].attempt.None? && s.workers[w].id < |s.jobs|
    case Finish(w, _, now) =>
      && w in s.workers && s.workers[w].id < |s.jobs| && Ready(s.workers[w])
      && InRange(now) && InRange(now + 60 * Backoff(c.maxBackoffMinutes, s.workers[w].attempt.value))
    case Restart => true
  }

  function Next(c: Config, s: State, step: Step): State
    requires Enabled(c, s, step)
  {
    match step
    case Enqueue(kind, payload, maxAttempts, now) =>
      var attempts := if maxAttempts.Some? then maxAttempts.value else c.defaultMaxAttempts;
      s.(jobs := s.jobs + [NewJob(kind, payload, attempts, Iso(now))],
         history := s.history + [History(0, 0, now)])
    case ClaimJob(w, id, now) =>
      s.(jobs := s.jobs[id := ClaimRow(s.jobs[id], Iso(now))],
         workers := s.workers[w := Claim(id, s.jobs[id], None)])
    case Reload(w) =>
      s.(workers := s.workers[w := s.workers[w].(attempt := Some(s.jobs[s.workers[w].id].attempt))])
    case Finish(w, outcome, now) =>
      var k := s.workers[w];
      State(s.jobs[k.id := SettledRow(s.jobs[k.id], c.maxBackoffMinutes, k.attempt.value, k.snapshot.maxAttempts,
          outcome, now)],
            s.workers - {w},
            s.history[k.id := SettledHistory(s.history[k.id], c.maxBackoffMinutes, k.attempt.value,
                k.snapshot.maxAttempts, outcome, now)])
    case Restart =>
      State(ResetAll(s.jobs), map[],
            seq(|s.jobs|, i requires 0 <= i < |s.jobs| =>
              if s.jobs[i].status.Running? then s.history[i].(resets := s.history[i].resets + 1) else s.history[i]))
  }

  function SettledHistory(h: History, cap: nat, attempt: nat, maxAttempts: int, outcome: Outcome, now: nat): History
    requires attempt >= 1
  {
    if outcome.Errored? && attempt < maxAttempts then
      h.(backoff := h.backoff + Backoff(cap, attempt), due := now + 60 * Backoff(cap, attempt))
    else h
  }

  // ---------------------------------------------------------------- the invariant

  // Backoff of the first n failed attempts together.
  function Budget(cap: nat, n: int): nat {
    if n <= 0 then 0 else Budget(cap, n - 1) + Backoff(cap, n)
  }

  function Min(a: int, b: int): int { if a < b then a else b }

  ghost predicate JobOk(cap: nat, j: Job, h: History) {
    && j.maxAttempts >= 1 && j.attempt >= 0
    && !j.status.Failed?
    && j.attempt <= j.maxAttempts + h.resets
    && (j.status.Pending? ==> j.attempt < j.maxAttempts + h.resets)
    && (j.status.Running? ==> j.attempt >= 1)
    && InRange(h.due) && j.nextAttemptAt == Some(Iso(h.due))
    && h.backoff <= Budget(cap, Min(if j.status.Pending? then j.attempt else j.attempt - 1, j.maxAttempts - 1))
  }

  ghost predicate ClaimOk(s: State, k: Claim) {
    && k.id < |s.jobs|
    && s.jobs[k.id].status.Running?
    && k.snapshot.maxAttempts == s.jobs[k.id].maxAttempts
    && k.snapshot.attempt + 1 == s.jobs[k.id].attempt
    && (k.attempt.Some? ==> k.attempt.value == s.jobs[k.id].attempt)
  }

  // The part of the invariant about the rows, and the part about the claims.
  ghost predicate RowsOk(c: Config, s: State) {
    |s.history| == |s.jobs|
    && forall i :: 0 <= i < |s.jobs| ==> JobOk(c.maxBackoffMinutes, s.jobs[i], s.history[i])
  }

  // Claims are exclusive and on running rows.
  ghost predicate Exclusive(s: State) {
    && (forall w :: w in s.workers ==> ClaimOk(s, s.workers[w]))
    && (forall w, v :: w in s.workers && v in s.workers && s.workers[w].id == s.workers[v].id ==> w == v)
  }

  ghost predicate Inv(c: Config, s: State) { RowsOk(c, s) && Exclusive(s) }

  lemma {:induction false} BudgetGrows(cap: nat, m: int, n: int)
    requires m <= n
    ensures Budget(cap, m) <= Budget(cap, n)
    decreases n - m
  {
    if m < n { BudgetGrows(cap, m, n - 1); }
  }

  lemma EnqueueKeeps(c: Config, s: State, step: Step)
    requires Inv(c, s) && Enabled(c, s, step) && step.Enqueue?
    ensures Inv(c, Next(c, s, step))
  {
    var s' := Next(c, s, step);
    forall w | w in s'.workers ensures ClaimOk(s', s'.workers[w]) {
      assert ClaimOk(s, s.workers[w]);
    }
  }

  lemma ClaimRowOk(cap: nat, j: Job, h: History, now: string)
    requires JobOk(cap, j, h) && j.status.Pending?
    ensures JobOk(cap, ClaimRow(j, now), h)
  {
  }

  lemma ClaimKeepsRows(c: Config, s: State, step: Step)
    requires RowsOk(c, s) && Enabled(c, s, step) && step.ClaimJob?
    ensures RowsOk(c, Next(c, s, step))
  {
    ClaimRowOk(c.maxBackoffMinutes, s.jobs[step.id], s.history[step.id], Iso(step.now));
  }

  lemma ClaimKeepsClaim(c: Config, s: State, step: Step, w: nat)
    requires Exclusive(s) && Enabled(c, s, step) && step.ClaimJob? && w in s.workers
    ensures var s' := Next(c, s, step);
            w in s'.workers && s'.workers[w] == s.workers[w] && ClaimOk(s', s'.workers[w])
                && s'.workers[w].id != step.id
  {
    assert ClaimOk(s, s.workers[w]);
  }

  lemma ClaimKeepsClaims(c: Config, s: State, step: Step)
    requires Exclusive(s) && Enabled(c, s, step) && step.ClaimJob?
    ensures Exclusive(Next(c, s, step))
  {
    var s' := Next(c, s, step);
    forall w | w in s'.workers
      ensures ClaimOk(s', s'.workers[w])
      ensures w != step.worker ==> w in s.workers && s'.workers[w] == s.workers[w] && s'.workers[w].id != step.id
    {
      if w != step.worker { ClaimKeepsClaim(c, s, step, w); }
    }
  }

  lemma ClaimKeeps(c: Config, s: State, step: Step)
    requires Inv(c, s) && Enabled(c, s, step) && step.ClaimJob?
    ensures Inv(c, Next(c, s, step))
  {
    ClaimKeepsRows(c, s, step);
    ClaimKeepsClaims(c, s, step);
  }

  lemma ReloadKeeps(c: Config, s: State, step: Step)
    requires Inv(c, s) && Enabled(c, s, step) && step.Reload?
    ensures Inv(c, Next(c, s, step))
  {
    var s' := Next(c, s, step);
    forall w | w in s'.workers ensures ClaimOk(s', s'.workers[w]) && s'.workers[w].id == s.workers[w].id {
      assert ClaimOk(s, s.workers[w]);
    }
  }

  lemma FinalRowOk(cap: nat, j: Job, h: History, status: Status, now: string, error: Option<string>,
      result: Option<string>)
    requires JobOk(cap, j, h) && j.status.Running? && (status.Completed? || status.Dead?)
    ensures JobOk(cap, FinalRow(j, status, now, error, result), h)
  {
  }

  lemma RetriedRowOk(cap: nat, j: Job, h: History, due: nat, message: string)
    requires JobOk(cap, j, h) && j.status.Running? && j.attempt < j.maxAttempts && InRange(due)
    ensures JobOk(cap, RetryRow(j, Iso(due), message), h.(backoff := h.backoff + Backoff(cap, j.attempt), due := due))
  {
    assert Min(j.attempt - 1, j.maxAttempts - 1) == j.attempt - 1 && Min(j.attempt, j.maxAttempts - 1) == j.attempt;
  }

  predicate Retries(outcome: Outcome, attempt: nat, maxAttempts: int) { outcome.Errored? && attempt < maxAttempts }

  lemma RetryIsRetryRow(cap: nat, j: Job, h: History, attempt: nat, outcome: Outcome, now: nat)
    requires attempt >= 1 && Retries(outcome, attempt, j.maxAttempts)
    requires InRange(now) && InRange(now + 60 * Backoff(cap, attempt))
    ensures SettledRow(j, cap, attempt, j.maxAttempts, outcome, now) ==
            RetryRow(j, Iso(now + 60 * Backoff(cap, attempt)), outcome.message)
    ensures SettledHistory(h, cap, attempt, j.maxAttempts, outcome, now) ==
            h.(backoff := h.backoff + Backoff(cap, attempt), due := now + 60 * Backoff(cap, attempt))
  {
  }

  lemma RetrySettlesOk(cap: nat, j: Job, h: History, outcome: Outcome, now: nat)
    requires JobOk(cap, j, h) && j.status.Running? && Retries(outcome, j.attempt, j.maxAttempts)
    requires InRange(now) && InRange(now + 60 * Backoff(cap, j.attempt))
    ensures JobOk(cap, SettledRow(j, cap, j.attempt, j.maxAttempts, outcome, now),
                  SettledHistory(h, cap, j.attempt, j.maxAttempts, outcome, now))
  {
    RetryIsRetryRow(cap, j, h, j.attempt, outcome, now);
    RetriedRowOk(cap, j, h, now + 60 * Backoff(cap, j.attempt), outcome.message);
  }

  lemma FinalSettlesOk(cap: nat, j: Job, h: History, outcome: Outcome, now: nat)
    requires JobOk(cap, j, h) && j.status.Running? && !Retries(outcome, j.attempt, j.maxAttempts)
    requires InRange(now) && InRange(now + 60 * Backoff(cap, j.attempt))
    ensures JobOk(cap, SettledRow(j, cap, j.attempt, j.maxAttempts, outcome, now), h)
  {
    match outcome
    case NoHandler(error) => FinalRowOk(cap, j, h, Dead, Iso(now), Some(error), None);
    case Returned(result) => FinalRowOk(cap, j, h, Completed, Iso(now), None, result);
    case Errored(message) => FinalRowOk(cap, j, h, Dead, Iso(now), Some(message), None);
    case Lost =>
  }

  lemma SettledRowOk(cap: nat, j: Job, h: History, attempt: nat, outcome: Outcome, now: nat)
    requires JobOk(cap, j, h) && j.status.Running? && attempt == j.attempt && attempt >= 1
    requires InRange(now) && InRange(now + 60 * Backoff(cap, attempt))
    ensures JobOk(cap, SettledRow(j, cap, attempt, j.maxAttempts, outcome, now),
                  SettledHistory(h, cap, attempt, j.maxAttempts, outcome, now))
  {
    if Retries(outcome, attempt, j.maxAttempts) {
      RetrySettlesOk(cap, j, h, outcome, now);
    } else {
      FinalSettlesOk(cap, j, h, outcome, now);
    }
  }

  lemma FinishKeepsRows(c: Config, s: State, step: Step)
    requires RowsOk(c, s) && Enabled(c, s, step) && step.Finish? && ClaimOk(s, s.workers[step.worker])
    ensures RowsOk(c, Next(c, s, step))
  {
    var k := s.workers[step.worker];
    SettledRowOk(c.maxBackoffMinutes, s.jobs[k.id], s.history[k.id], k.attempt.value, step.outcome, step.now);
  }

  lemma FinishKeepsClaims(c: Config, s: State, step: Step)
    requires Exclusive(s) && Enabled(c, s, step) && step.Finish?
    ensures Exclusive(Next(c, s, step))
  {
    var s' := Next(c, s, step);
    forall w | w in s'.workers ensures ClaimOk(s', s'.workers[w]) {
      assert w != step.worker && s.workers[w].id != s.workers[step.worker].id;
      assert ClaimOk(s, s.workers[w]);
    }
  }

  lemma FinishKeeps(c: Config, s: State, step: Step)
    requires Inv(c, s) && Enabled(c, s, step) && step.Finish?
    ensures Inv(c, Next(c, s, step))
  {
    assert ClaimOk(s, s.workers[step.worker]);
    FinishKeepsRows(c, s, step);
    FinishKeepsClaims(c, s, step);
  }

  lemma RestartKeeps(c: Config, s: State)
    requires Inv(c, s) && Enabled(c, s, Restart)
    ensures Inv(c, Next(c, s, Restart))
  {
    var s' := Next(c, s, Restart);
    forall i | 0 <= i < |s'.jobs| ensures JobOk(c.maxBackoffMinutes, s'.jobs[i], s'.history[i]) {
      var j := s.jobs[i];
      assert JobOk(c.maxBackoffMinutes, j, s.history[i]);
      BudgetGrows(c.maxBackoffMinutes, Min(j.attempt - 1, j.maxAttempts - 1), Min(j.attempt, j.maxAttempts - 1));
    }
  }

  lemma StepKeeps(c: Config, s: State, step: Step)
    requires Inv(c, s) && Enabled(c, s, step)
    ensures Inv(c, Next(c, s, step))
  {
    match step
    case Enqueue(_, _, _, _) => EnqueueKeeps(c, s, step);
    case ClaimJob(_, _, _) => ClaimKeeps(c, s, step);
    case Reload(_) => ReloadKeeps(c, s, step);
    case Finish(_, _, _) => FinishKeeps(c, s, step);
    case Restart => RestartKeeps(c, s);
  }

  // ---------------------------------------------------------------- runs

  predicate LegalRun(c: Config, s: State, steps: seq<Step>)
    decreases |steps|
  {
    steps == [] || (Enabled(c, s, steps[0]) && LegalRun(c, Next(c, s, steps[0]), steps[1..]))
  }

  function Run(c: Config, s: State, steps: seq<Step>): State
    requires LegalRun(c, s, steps)
    decreases |steps|
  {
    if steps == [] then s else Run(c, Next(c, s, steps[0]), steps[1..])
  }

  function Enqueues(steps: seq<Step>): nat {
    if steps == [] then 0 else (if steps[0].Enqueue? then 1 else 0) + Enqueues(steps[1..])
  }

  lemma {:induction false} RunKeeps(c: Config, s: State, steps: seq<Step>)
    requires Inv(c, s) && LegalRun(c, s, steps)
    ensures Inv(c, Run(c, s, steps))
    ensures |Run(c, s, steps).jobs| == |s.jobs| + Enqueues(steps)
    decreases |steps|
  {
    if steps != [] {
      StepKeeps(c, s, steps[0]);
      RunKeeps(c, Next(c, s, steps[0]), steps[1..]);
    }
  }

  lemma {:induction false} CountsAddUp(jobs: seq<Job>)
    ensures CountStatus(jobs, Pending) + CountStatus(jobs, Running) + CountStatus(jobs, Completed)
            + CountStatus(jobs, Failed) + CountStatus(jobs, Dead) == |jobs|
    ensures CountStatus(jobs, Failed) == 0 <==> forall i :: 0 <= i < |jobs| ==> !jobs[i].status.Failed?
  {
    if jobs != [] {
      CountsAddUp(jobs[1..]);
      assert forall i :: 0 < i < |jobs| ==> jobs[i] == jobs[1..][i - 1];
    }
  }

  lemma {:induction false} BudgetBound(cap: nat, n: nat)
    ensures Budget(cap, n) <= Pow2(n) - 1 && Budget(cap, n) <= n * cap
  {
    if n > 0 {
      BudgetBound(cap, n - 1);
      assert n * cap == (n - 1) * cap + cap;
    }
  }

  // Attempts stay within the configured number plus the orphan resets, and so does the backoff within what
  // the configured number allows.
  ghost predicate Bounded(cap: nat, j: Job, h: History) {
    && 1 <= j.maxAttempts && j.attempt <= j.maxAttempts + h.resets
    && h.backoff <= Pow2(j.maxAttempts - 1) - 1 && h.backoff <= (j.maxAttempts - 1) * cap
  }

  // Every reachable state of the queue: claims are exclusive, `failed` is never entered, the statuses add
  // up to what was enqueued, and attempts and backoff are bounded, restarts included.
  lemma QueueSafety(c: Config, steps: seq<Step>)
    requires LegalRun(c, EMPTY, steps)
    ensures var s := Run(c, EMPTY, steps);
            && Exclusive(s)
            && CountStatus(s.jobs, Failed) == 0
            && CountStatus(s.jobs, Pending) + CountStatus(s.jobs, Running) + CountStatus(s.jobs, Completed)
               + CountStatus(s.jobs, Dead) == Enqueues(steps)
            && |s.history| == |s.jobs|
            && forall i :: 0 <= i < |s.jobs| ==> Bounded(c.maxBackoffMinutes, s.jobs[i], s.history[i])
  {
    var s := Run(c, EMPTY, steps);
    RunKeeps(c, EMPTY, steps);
    CountsAddUp(s.jobs);
    forall i | 0 <= i < |s.jobs|
      ensures !s.jobs[i].status.Failed? && Bounded(c.maxBackoffMinutes, s.jobs[i], s.history[i])
    {
      BackoffBound(c.maxBackoffMinutes, s.jobs[i], s.history[i]);
    }
  }

  lemma BackoffBound(cap: nat, j: Job, h: History)
    requires JobOk(cap, j, h)
    ensures !j.status.Failed? && Bounded(cap, j, h)
  {
    BudgetGrows(cap, Min(if j.status.Pending? then j.attempt else j.attempt - 1, j.maxAttempts - 1), j.maxAttempts - 1);
    BudgetBound(cap, j.maxAttempts - 1);
  }

  // ---------------------------------------------------------------- finished jobs

  lemma StepLeavesTerminal(c: Config, s: State, step: Step, i: nat)
    requires Inv(c, s) && Enabled(c, s, step) && i < |s.jobs| && Terminal(s.jobs[i])
    ensures Next(c, s, step).jobs[i] == s.jobs[i] && Next(c, s, step).history[i] == s.history[i]
  {
    if step.Finish? { assert ClaimOk(s, s.workers[step.worker]); }
  }

  // A completed or dead job is never touched again.
  lemma {:induction false} TerminalForever(c: Config, s: State, steps: seq<Step>, i: nat)
    requires Inv(c, s) && LegalRun(c, s, steps) && i < |s.jobs| && Terminal(s.jobs[i])
    ensures |Run(c, s, steps).jobs| >= |s.jobs| && Run(c, s, steps).jobs[i] == s.jobs[i]
    decreases |steps|
  {
    if steps != [] {
      StepKeeps(c, s, steps[0]);
      StepLeavesTerminal(c, s, steps[0], i);
      TerminalForever(c, Next(c, s, steps[0]), steps[1..], i);
    }
  }

  // ---------------------------------------------------------------- waiting

  lemma ClaimIsDue(c: Config, s: State, step: Step)
    requires Inv(c, s) && Enabled(c, s, step) && step.ClaimJob?
    ensures s.history[step.id].due <= step.now
  {
    assert JobOk(c.maxBackoffMinutes, s.jobs[step.id], s.history[step.id]);
    IsoOrder(s.history[step.id].due, step.now);
  }

  predicate Claims(steps: seq<Step>, id: nat) {
    exists i :: 0 <= i < |steps| && steps[i].ClaimJob? && steps[i].id == id
  }

  predicate Unheld(s: State, id: nat) {
    id < |s.jobs| && s.jobs[id].status.Pending?
  }

  lemma StepLeavesPending(c: Config, s: State, step: Step, id: nat)
    requires Inv(c, s) && Enabled(c, s, step) && Unheld(s, id) && !(step.ClaimJob? && step.id == id)
    ensures Unheld(Next(c, s, step), id) && Next(c, s, step).history[id].due == s.history[id].due
  {
    if step.Finish? { assert ClaimOk(s, s.workers[step.worker]); }
  }

  lemma {:induction false} DueUntilClaimed(c: Config, s: State, steps: seq<Step>, id: nat)
    requires Inv(c, s) && LegalRun(c, s, steps) && Unheld(s, id) && !Claims(steps, id)
    ensures Unheld(Run(c, s, steps), id) && id < |Run(c, s, steps).history|
    ensures Run(c, s, steps).history[id].due == s.history[id].due
    decreases |steps|
  {
    if steps != [] {
      assert !(steps[0].ClaimJob? && steps[0].id == id);
      StepLeavesPending(c, s, steps[0], id);
      StepKeeps(c, s, steps[0]);
      assert forall i :: 0 <= i < |steps[1..]| ==> steps[1..][i] == steps[i + 1];
      DueUntilClaimed(c, Next(c, s, steps[0]), steps[1..], id);
    }
  }

  lemma ClaimWaits(c: Config, s: State, w: nat, message: string, now: nat, steps: seq<Step>, w': nat, later: nat)
    requires Inv(c, s) && Enabled(c, s, Finish(w, Errored(message), now))
    requires s.workers[w].attempt.value < s.workers[w].snapshot.maxAttempts
    requires LegalRun(c, Next(c, s, Finish(w, Errored(message), now)), steps) && !Claims(steps, s.workers[w].id)
    requires Enabled(c, Run(c, Next(c, s, Finish(w, Errored(message), now)), steps),
        ClaimJob(w', s.workers[w].id, later))
    ensures later >= now + 60 * Backoff(c.maxBackoffMinutes, s.workers[w].attempt.value)
  {
    var failed := Finish(w, Errored(message), now);
    var s' := Next(c, s, failed);
    StepKeeps(c, s, failed);
    DueUntilClaimed(c, s', steps, s.workers[w].id);
    RunKeeps(c, s', steps);
    ClaimIsDue(c, Run(c, s', steps), ClaimJob(w', s.workers[w].id, later));
  }

  // After failed attempt number n the job is not claimed again for 2^(n-1) minutes or the limit, whichever is less,
  // whatever happens in between, process restarts included.
  lemma RetryWaits(c: Config, s: State, w: nat, message: string, now: nat, steps: seq<Step>, w': nat, later: nat,
      doubled: seq<nat>)
    requires Inv(c, s) && Enabled(c, s, Finish(w, Errored(message), now))
    requires s.workers[w].attempt.value < s.workers[w].snapshot.maxAttempts
    requires LegalRun(c, Next(c, s, Finish(w, Errored(message), now)), steps) && !Claims(steps, s.workers[w].id)
    requires Enabled(c, Run(c, Next(c, s, Finish(w, Errored(message), now)), steps),
        ClaimJob(w', s.workers[w].id, later))
    requires Doubling(doubled) && s.workers[w].attempt.value <= |doubled|
    ensures later >= now + 60 * Min(doubled[s.workers[w].attempt.value - 1], c.maxBackoffMinutes)
  {
    ClaimWaits(c, s, w, message, now, steps, w', later);
    BackoffIs(c.maxBackoffMinutes, s.workers[w].attempt.value, doubled);
  }

  // ---------------------------------------------------------------- draining

  function Max(a: int, b: int): int { if a < b then b else a }

  // How much work a row can still cause.
  function Weight(j: Job): (n: nat) {
    match j.status
    case Pending => Max(3, 2 * (j.maxAttempts - j.attempt) + 1)
    case Running => 2 * Max(0, j.maxAttempts - j.attempt) + 2
    case _ => 0
  }

  function TotalWeight(jobs: seq<Job>): nat {
    if jobs == [] then 0 else Weight(jobs[0]) + TotalWeight(jobs[1..])
  }

  function Unreloaded(workers: map<nat, Claim>): set<nat> {
    set w | w in workers && workers[w].attempt.None?
  }

  function Pressure(workers: map<nat, Claim>): nat { |Unreloaded(workers)| + |workers| }

  function Measure(s: State): nat {
    4 * TotalWeight(s.jobs) + Pressure(s.workers)
  }

  lemma {:induction false} TotalWeightUpdate(jobs: seq<Job>, i: nat, j: Job)
    requires i < |jobs|
    ensures TotalWeight(jobs[i := j]) == TotalWeight(jobs) - Weight(jobs[i]) + Weight(j)
  {
    if i > 0 {
      assert jobs[i := j][1..] == jobs[1..][i - 1 := j];
      TotalWeightUpdate(jobs[1..], i - 1, j);
    } else {
      assert jobs[i := j][1..] == jobs[1..];
    }
  }

  predicate IsWork(step: Step) { step.ClaimJob? || step.Reload? || step.Finish? }

  lemma ClaimLowersWeight(j: Job, now: string)
    requires j.status.Pending?
    ensures Weight(ClaimRow(j, now)) < Weight(j)
  {
  }

  lemma SettlingLowersWeight(j: Job, cap: nat, attempt: nat, outcome: Outcome, now: nat)
    requires j.status.Running? && attempt >= 1 && attempt == j.attempt
    requires InRange(now) && InRange(now + 60 * Backoff(cap, attempt))
    ensures Weight(SettledRow(j, cap, attempt, j.maxAttempts, outcome, now)) <= Weight(j)
  {
  }

  lemma PressureOfClaim(m: map<nat, Claim>, w: nat, k: Claim)
    requires w !in m && k.attempt.None?
    ensures Pressure(m[w := k]) == Pressure(m) + 2
  {
    assert Unreloaded(m[w := k]) == Unreloaded(m) + {w};
    assert m[w := k].Keys == m.Keys + {w};
    assert |m[w := k]| == |m[w := k].Keys| && |m| == |m.Keys|;
  }

  lemma PressureOfReload(m: map<nat, Claim>, w: nat, k: Claim)
    requires w in m && m[w].attempt.None? && k.attempt.Some?
    ensures Pressure(m[w := k]) == Pressure(m) - 1
  {
    assert w in Unreloaded(m) && Unreloaded(m[w := k]) == Unreloaded(m) - {w};
    assert m[w := k].Keys == m.Keys;
    assert |m[w := k]| == |m[w := k].Keys| && |m| == |m.Keys|;
  }

  lemma PressureOfFinish(m: map<nat, Claim>, w: nat)
    requires w in m && m[w].attempt.Some?
    ensures Pressure(m - {w}) == Pressure(m) - 1
  {
    assert Unreloaded(m - {w}) == Unreloaded(m);
    assert (m - {w}).Keys == m.Keys - {w};
    assert |m - {w}| == |(m - {w}).Keys| && |m| == |m.Keys|;
  }

  lemma ClaimLowersMeasure(c: Config, s: State, step: Step)
    requires Enabled(c, s, step) && step.ClaimJob?
    ensures Measure(Next(c, s, step)) < Measure(s)
  {
    var j := s.jobs[step.id];
    TotalWeightUpdate(s.jobs, step.id, ClaimRow(j, Iso(step.now)));
    ClaimLowersWeight(j, Iso(step.now));
    PressureOfClaim(s.workers, step.worker, Claim(step.id, j, None));
  }

  lemma ReloadLowersMeasure(c: Config, s: State, step: Step)
    requires Enabled(c, s, step) && step.Reload?
    ensures Measure(Next(c, s, step)) < Measure(s)
  {
    PressureOfReload(s.workers, step.worker, Next(c, s, step).workers[step.worker]);
  }

  lemma SettlingLowersTotal(jobs: seq<Job>, id: nat, cap: nat, attempt: nat, outcome: Outcome, now: nat)
    requires id < |jobs| && jobs[id].status.Running? && attempt == jobs[id].attempt && attempt >= 1
    requires InRange(now) && InRange(now + 60 * Backoff(cap, attempt))
    ensures TotalWeight(jobs[id := SettledRow(jobs[id], cap, attempt, jobs[id].maxAttempts, outcome, now)])
        <= TotalWeight(jobs)
  {
    TotalWeightUpdate(jobs, id, SettledRow(jobs[id], cap, attempt, jobs[id].maxAttempts, outcome, now));
    SettlingLowersWeight(jobs[id], cap, attempt, outcome, now);
  }

  lemma FinishLowersMeasure(c: Config, s: State, step: Step)
    requires Enabled(c, s, step) && step.Finish? && ClaimOk(s, s.workers[step.worker])
    ensures Measure(Next(c, s, step)) < Measure(s)
  {
    var k := s.workers[step.worker];
    SettlingLowersTotal(s.jobs, k.id, c.maxBackoffMinutes, k.attempt.value, step.outcome, step.now);
    PressureOfFinish(s.workers, step.worker);
    FinishParts(c, s, step);
  }

  lemma FinishParts(c: Config, s: State, step: Step)
    requires Enabled(c, s, step) && step.Finish?
    ensures var k := s.workers[step.worker];
            Next(c, s, step).jobs ==
            s.jobs[k.id := SettledRow(s.jobs[k.id], c.maxBackoffMinutes, k.attempt.value,
                    k.snapshot.maxAttempts, step.outcome, step.now)]
    ensures Next(c, s, step).workers == s.workers - {step.worker}
  {
  }

  lemma WorkLowersMeasure(c: Config, s: State, step: Step)
    requires Inv(c, s) && Enabled(c, s, step) && IsWork(step)
    ensures Measure(Next(c, s, step)) < Measure(s)
  {
    match step
    case ClaimJob(_, _, _) => ClaimLowersMeasure(c, s, step);
    case Reload(_) => ReloadLowersMeasure(c, s, step);
    case Finish(_, _, _) => FinishLowersMeasure(c, s, step);
  }

  // Without enqueues and restarts the queue does at most `Measure` steps of work.
  lemma {:induction false} WorkIsBounded(c: Config, s: State, steps: seq<Step>)
    requires Inv(c, s) && LegalRun(c, s, steps) && forall i :: 0 <= i < |steps| ==> IsWork(steps[i])
    ensures Measure(Run(c, s, steps)) + |steps| <= Measure(s)
    decreases |steps|
  {
    if steps != [] {
      WorkLowersMeasure(c, s, steps[0]);
      StepKeeps(c, s, steps[0]);
      var rest := steps[1..];
      assert forall i :: 0 <= i < |rest| ==> rest[i] == steps[i + 1];
      WorkIsBounded(c, Next(c, s, steps[0]), rest);
    }
  }

  ghost predicate Held(s: State, id: nat) {
    exists w :: w in s.workers && s.workers[w].id == id
  }

  // No worker was lost: every running row has its holder.
  ghost predicate EveryRunningHeld(s: State) {
    forall i :: 0 <= i < |s.jobs| && s.jobs[i].status.Running? ==> Held(s, i)
  }

  lemma ClaimKeepsHolder(c: Config, s: State, step: Step, i: nat)
    requires Enabled(c, s, step) && step.ClaimJob? && (step.id == i || Held(s, i))
    ensures Held(Next(c, s, step), i)
  {
    var s' := Next(c, s, step);
    if step.id == i {
      assert s'.workers[step.worker].id == i;
    } else {
      var w :| w in s.workers && s.workers[w].id == i;
      assert w in s'.workers && s'.workers[w].id == i;
    }
  }

  lemma ReloadKeepsHolder(c: Config, s: State, step: Step, i: nat)
    requires Enabled(c, s, step) && step.Reload? && Held(s, i)
    ensures Held(Next(c, s, step), i)
  {
    var w :| w in s.workers && s.workers[w].id == i;
    assert w in Next(c, s, step).workers && Next(c, s, step).workers[w].id == i;
  }

  lemma SettledIsNotRunning(j: Job, cap: nat, attempt: nat, maxAttempts: int, outcome: Outcome, now: nat)
    requires attempt >= 1 && InRange(now) && InRange(now + 60 * Backoff(cap, attempt)) && !outcome.Lost?
    ensures !SettledRow(j, cap, attempt, maxAttempts, outcome, now).status.Running?
  {
  }

  lemma FinishKeepsHolder(c: Config, s: State, step: Step, i: nat)
    requires Enabled(c, s, step) && step.Finish? && !step.outcome.Lost? && i < |s.jobs|
    requires Next(c, s, step).jobs[i].status.Running? && (s.jobs[i].status.Running? ==> Held(s, i))
    ensures Held(Next(c, s, step), i)
  {
    var k := s.workers[step.worker];
    SettledIsNotRunning(s.jobs[k.id], c.maxBackoffMinutes, k.attempt.value, k.snapshot.maxAttempts, step.outcome,
        step.now);
    FinishParts(c, s, step);
    var w :| w in s.workers && s.workers[w].id == i;
    assert w in Next(c, s, step).workers && Next(c, s, step).workers[w].id == i;
  }

  lemma StepKeepsHolder(c: Config, s: State, step: Step, i: nat)
    requires Enabled(c, s, step) && IsWork(step) && !(step.Finish? && step.outcome.Lost?)
    requires i < |s.jobs| && Next(c, s, step).jobs[i].status.Running? && (s.jobs[i].status.Running? ==> Held(s, i))
    ensures Held(Next(c, s, step), i)
  {
    match step
    case ClaimJob(_, _, _) => ClaimKeepsHolder(c, s, step, i);
    case Reload(_) => ReloadKeepsHolder(c, s, step, i);
    case Finish(_, _, _) => FinishKeepsHolder(c, s, step, i);
  }

  lemma StepKeepsHolders(c: Config, s: State, step: Step)
    requires Inv(c, s) && EveryRunningHeld(s) && Enabled(c, s, step)
    requires IsWork(step) && !(step.Finish? && step.outcome.Lost?)
    ensures EveryRunningHeld(Next(c, s, step))
  {
    var s' := Next(c, s, step);
    forall i | 0 <= i < |s'.jobs| && s'.jobs[i].status.Running? ensures Held(s', i) {
      StepKeepsHolder(c, s, step, i);
    }
  }

  lemma {:induction false} WorkKeepsHolders(c: Config, s: State, steps: seq<Step>)
    requires Inv(c, s) && EveryRunningHeld(s) && LegalRun(c, s, steps)
    requires forall i :: 0 <= i < |steps| ==> IsWork(steps[i]) && !(steps[i].Finish? && steps[i].outcome.Lost?)
    ensures EveryRunningHeld(Run(c, s, steps))
    decreases |steps|
  {
    if steps != [] {
      StepKeepsHolders(c, s, steps[0]);
      StepKeeps(c, s, steps[0]);
      var rest := steps[1..];
      assert forall i :: 0 <= i < |rest| ==> rest[i] == steps[i + 1];
      WorkKeepsHolders(c, Next(c, s, steps[0]), rest);
    }
  }

  lemma {:induction false} OldestExists(jobs: seq<Job>, now: string, n: nat) returns (id: nat)
    requires n <= |jobs| && exists i :: 0 <= i < n && Eligible(jobs[i], now)
    ensures id < n && Eligible(jobs[id], now)
    ensures forall j :: 0 <= j < n && Eligible(jobs[j], now) ==> LexLe(jobs[id].createdAt, jobs[j].createdAt)
  {
    LexTotal(jobs[n - 1].createdAt, jobs[n - 1].createdAt);
    if exists i :: 0 <= i < n - 1 && Eligible(jobs[i], now) {
      id := OldestExists(jobs, now, n - 1);
      LexTotal(jobs[id].createdAt, jobs[n - 1].createdAt);
      if Eligible(jobs[n - 1], now) && !LexLe(jobs[id].createdAt, jobs[n - 1].createdAt) {
        forall j | 0 <= j < n && Eligible(jobs[j], now) ensures LexLe(jobs[n - 1].createdAt, jobs[j].createdAt) {
          if j < n - 1 { LexTransitive(jobs[n - 1].createdAt, jobs[id].createdAt, jobs[j].createdAt); }
        }
        id := n - 1;
      }
    } else {
      id := n - 1;
    }
  }

  lemma HolderCanFinish(c: Config, s: State, w: nat, now: nat)
    requires Inv(c, s) && w in s.workers && s.workers[w].attempt.Some?
    requires InRange(now) && InRange(now + 60 * c.maxBackoffMinutes)
    ensures Enabled(c, s, Finish(w, Returned(None), now))
  {
    var k := s.workers[w];
    assert ClaimOk(s, k);
    assert JobOk(c.maxBackoffMinutes, s.jobs[k.id], s.history[k.id]);
    EarlierInRange(now + 60 * Backoff(c.maxBackoffMinutes, k.attempt.value), now + 60 * c.maxBackoffMinutes);
  }

  lemma HolderCanMove(c: Config, s: State, id: nat, now: nat)
    requires Inv(c, s) && Held(s, id) && InRange(now) && InRange(now + 60 * c.maxBackoffMinutes)
    ensures exists step :: IsWork(step) && Enabled(c, s, step)
  {
    var w :| w in s.workers && s.workers[w].id == id;
    assert ClaimOk(s, s.workers[w]);
    var step := if s.workers[w].attempt.None? then Reload(w) else Finish(w, Returned(None), now);
    if s.workers[w].attempt.Some? {
      HolderCanFinish(c, s, w, now);
    }
    assert IsWork(step) && Enabled(c, s, step);
  }

  lemma PendingCanBeClaimed(c: Config, s: State, i: nat, now: nat)
    requires Inv(c, s) && InRange(now) && Unheld(s, i) && s.history[i].due <= now
    ensures exists step :: IsWork(step) && Enabled(c, s, step)
  {
    assert JobOk(c.maxBackoffMinutes, s.jobs[i], s.history[i]);
    IsoOrder(s.history[i].due, now);
    assert Eligible(s.jobs[i], Iso(now));
    var id := OldestExists(s.jobs, Iso(now), |s.jobs|);
    var w := FreshWorker(s.workers.Keys);
    var step := ClaimJob(w, id, now);
    assert IsWork(step) && Enabled(c, s, step);
  }

  // With nothing enqueued, no restart and no lost worker, the queue works a bounded number of steps, and
  // once it can do no more at a time when every job is due, every job is completed or dead.
  lemma QueueDrains(c: Config, s: State, steps: seq<Step>, now: nat)
    requires Inv(c, s) && EveryRunningHeld(s) && LegalRun(c, s, steps)
    requires forall i :: 0 <= i < |steps| ==> IsWork(steps[i]) && !(steps[i].Finish? && steps[i].outcome.Lost?)
    ensures |steps| <= Measure(s)
    ensures var s' := Run(c, s, steps);
            InRange(now) && InRange(now + 60 * c.maxBackoffMinutes)
            && (forall i :: 0 <= i < |s'.history| ==> s'.history[i].due <= now)
            && (forall step :: IsWork(step) ==> !Enabled(c, s', step))
            ==> forall i :: 0 <= i < |s'.jobs| ==> Terminal(s'.jobs[i])
  {
    var s' := Run(c, s, steps);
    WorkIsBounded(c, s, steps);
    WorkKeepsHolders(c, s, steps);
    RunKeeps(c, s, steps);
    if InRange(now) && InRange(now + 60 * c.maxBackoffMinutes)
       && (forall i :: 0 <= i < |s'.history| ==> s'.history[i].due <= now)
       && (forall step :: IsWork(step) ==> !Enabled(c, s', step)) {
      forall i | 0 <= i < |s'.jobs| ensures Terminal(s'.jobs[i]) {
        assert JobOk(c.maxBackoffMinutes, s'.jobs[i], s'.history[i]);
        if s'.jobs[i].status.Running? {
          HolderCanMove(c, s', i, now);
        } else if s'.jobs[i].status.Pending? {
          PendingCanBeClaimed(c, s', i, now);
        }
      }
    }
  }

  lemma EarlierInRange(t: nat, u: nat)
    requires t <= u && InRange(u)
    ensures InRange(t)
  {
    if t / DAY < u / DAY { LaterDaysHaveLaterDates(t / DAY, u / DAY); }
  }

  lemma FreshWorker(used: set<nat>) returns (w: nat)
    ensures w !in used
  {
    var bound := UpperBound(used);
    w := bound + 1;
    assert w in used ==> w <= bound;
  }

  lemma {:induction false} UpperBound(used: set<nat>) returns (bound: nat)
    ensures forall x :: x in used ==> x <= bound
  {
    bound := 0;
    if used != {} {
      var x :| x in used;
      var b := UpperBound(used - {x});
      bound := if b < x then x else b;
      forall y | y in used ensures y <= bound {
        assert y == x || y in used - {x};
      }
    }
  }
}
