// The persistent background job queue: its table, and what each locked section does to it.
module JobQueue {
  import opened Wrappers
  import opened StringOrder
  import opened IsoTime

  datatype Status = Pending | Running | Completed | Failed | Dead

  // A row of `background_jobs`. A job is known by its place in the table; rows are never deleted.
  datatype Job = Job(
    kind: string, payload: string, status: Status, attempt: int, maxAttempts: int,
    createdAt: string, startedAt: Option<string>, completedAt: Option<string>,
    nextAttemptAt: Option<string>, error: Option<string>, result: Option<string>)

  // What running a handler comes to. `Lost` is a worker that leaves without updating the row: the handler
  // raised something that is not an `Exception`, or its result cannot be serialised.
  datatype Outcome = NoHandler(error: string) | Returned(result: Option<string>) | Errored(message: string) | Lost

  predicate Terminal(job: Job) { job.status.Completed? || job.status.Dead? }

  // ---------------------------------------------------------------- row updates

  function NewJob(kind: string, payload: string, maxAttempts: int, now: string): Job {
    Job(kind, payload, Pending, 0, if maxAttempts < 1 then 1 else maxAttempts, now, None, None, Some(now), None, None)
  }

  function ClaimRow(job: Job, now: string): Job {
    job.(status := Running, startedAt := Some(now), attempt := job.attempt + 1)
  }

  function RetryRow(job: Job, nextAt: string, message: string): Job {
    job.(status := Pending, nextAttemptAt := Some(nextAt), error := Some(message), startedAt := None)
  }

  function FinalRow(job: Job, status: Status, now: string, error: Option<string>, result: Option<string>): Job {
    job.(status := status, completedAt := Some(now), error := error, result := result)
  }

  function ResetRow(job: Job): Job {
    if job.status.Running? then job.(status := Pending, startedAt := None) else job
  }

  function ResetAll(jobs: seq<Job>): (r: seq<Job>)
    ensures |r| == |jobs| && forall i :: 0 <= i < |jobs| ==> r[i] == ResetRow(jobs[i])
  {
    seq(|jobs|, i requires 0 <= i < |jobs| => ResetRow(jobs[i]))
  }

  function Pow2(n: nat): (r: nat)
    ensures r >= 1
  {
    if n == 0 then 1 else 2 * Pow2(n - 1)
  }

  // Minutes until the next try after the given attempt failed.
  function Backoff(maxBackoffMinutes: nat, attempt: nat): nat
    requires attempt >= 1
  {
    if maxBackoffMinutes < Pow2(attempt - 1) then maxBackoffMinutes else Pow2(attempt - 1)
  }

  // 1, 2, 4, 8, ...
  ghost predicate Doubling(w: seq<nat>) {
    (w != [] ==> w[0] == 1) && forall i :: 0 < i < |w| ==> w[i] == 2 * w[i - 1]
  }

  lemma {:induction false} DoublingExists(n: nat) returns (w: seq<nat>)
    ensures Doubling(w) && |w| == n
  {
    if n == 0 {
      w := [];
    } else {
      var v := DoublingExists(n - 1);
      w := v + [if v == [] then 1 else 2 * v[|v| - 1]];
    }
  }

  lemma {:induction false} Pow2Is(n: nat, w: seq<nat>)
    requires Doubling(w) && n < |w|
    ensures Pow2(n) == w[n]
  {
    if n > 0 { Pow2Is(n - 1, w); }
  }

  // The wait behind attempt number n is the n-th of the doubled minutes, or the limit where that is less.
  lemma BackoffIs(maxBackoffMinutes: nat, attempt: nat, w: seq<nat>)
    requires Doubling(w) && 1 <= attempt <= |w|
    ensures Backoff(maxBackoffMinutes, attempt) ==
            if maxBackoffMinutes < w[attempt - 1] then maxBackoffMinutes else w[attempt - 1]
  {
    Pow2Is(attempt - 1, w);
  }

  predicate Eligible(job: Job, now: string) {
    job.status.Pending? && (job.nextAttemptAt.None? || LexLe(job.nextAttemptAt.value, now))
  }

  // A row the claim query may return: eligible, and no eligible row was created earlier.
  predicate OldestEligible(jobs: seq<Job>, now: string, id: nat) {
    && id < |jobs|
    && Eligible(jobs[id], now)
    && forall j :: 0 <= j < |jobs| && Eligible(jobs[j], now) ==> LexLe(jobs[id].createdAt, jobs[j].createdAt)
  }

  // The row after the worker holding it, in its `attempt`-th attempt, is done.
  function SettledRow(job: Job, maxBackoffMinutes: nat, attempt: nat, maxAttempts: int, outcome: Outcome, now: nat): Job
    requires attempt >= 1 && InRange(now) && InRange(now + 60 * Backoff(maxBackoffMinutes, attempt))
  {
    match outcome
    case NoHandler(error) => FinalRow(job, Dead, Iso(now), Some(error), None)
    case Returned(result) => FinalRow(job, Completed, Iso(now), None, result)
    case Errored(message) =>
      if attempt >= maxAttempts then FinalRow(job, Dead, Iso(now), Some(message), None)
      else RetryRow(job, Iso(now + 60 * Backoff(maxBackoffMinutes, attempt)), message)
    case Lost => job
  }

  // The row is settled as the outcome demands: dead for want of a handler, completed, dead behind its last attempt, or
  // waiting for the next one as many minutes as the doubled ones and the limit say; a lost worker leaves it as it is.
  ghost predicate Settled(job: Job, job': Job, maxBackoffMinutes: nat, attempt: nat, maxAttempts: int, outcome: Outcome,
      now: nat)
    requires attempt >= 1 && InRange(now)
  {
    && (outcome.NoHandler? ==> job' == job.(status := Dead, completedAt := Some(Iso(now)), error := Some(outcome.error),
        result := None))
    && (outcome.Returned? ==> job' == job.(status := Completed, completedAt := Some(Iso(now)), error := None,
        result := outcome.result))
    && (outcome.Errored? && attempt >= maxAttempts ==>
          job' == job.(status := Dead, completedAt := Some(Iso(now)), error := Some(outcome.message), result := None))
    && (outcome.Errored? && attempt < maxAttempts ==>
          forall w :: Doubling(w) && attempt <= |w| ==>
            var minutes := if maxBackoffMinutes < w[attempt - 1] then maxBackoffMinutes else w[attempt - 1];
            && InRange(now + 60 * minutes)
            && job' == job.(status := Pending, nextAttemptAt := Some(Iso(now + 60 * minutes)),
                error := Some(outcome.message), startedAt := None))
    && (outcome.Lost? ==> job' == job)
  }

  lemma RowIsSettled(job: Job, maxBackoffMinutes: nat, attempt: nat, maxAttempts: int, outcome: Outcome, now: nat)
    requires attempt >= 1 && InRange(now) && InRange(now + 60 * Backoff(maxBackoffMinutes, attempt))
    ensures Settled(job, SettledRow(job, maxBackoffMinutes, attempt, maxAttempts, outcome, now), maxBackoffMinutes,
                    attempt, maxAttempts, outcome, now)
  {
    forall w | Doubling(w) && attempt <= |w|
      ensures Backoff(maxBackoffMinutes, attempt) ==
              if maxBackoffMinutes < w[attempt - 1] then maxBackoffMinutes else w[attempt - 1]
    {
      BackoffIs(maxBackoffMinutes, attempt, w);
    }
  }

  function CountStatus(jobs: seq<Job>, status: Status): nat {
    if jobs == [] then 0 else (if jobs[0].status == status then 1 else 0) + CountStatus(jobs[1..], status)
  }

  function CountKind(jobs: seq<Job>, kind: string): nat {
    if jobs == [] then 0 else (if jobs[0].kind == kind then 1 else 0) + CountKind(jobs[1..], kind)
  }

  // Rows count one by one.
  lemma {:induction false} CountsAdd(a: seq<Job>, b: seq<Job>, status: Status, kind: string)
    ensures CountStatus(a + b, status) == CountStatus(a, status) + CountStatus(b, status)
    ensures CountKind(a + b, kind) == CountKind(a, kind) + CountKind(b, kind)
    ensures forall j: Job :: CountStatus([j], status) == (if j.status == status then 1 else 0)
    ensures forall j: Job :: CountKind([j], kind) == (if j.kind == kind then 1 else 0)
  {
    forall j: Job
      ensures CountStatus([j], status) == (if j.status == status then 1 else 0)
      ensures CountKind([j], kind) == (if j.kind == kind then 1 else 0)
    {
      assert [j][1..] == [];
    }
    if a == [] {
      assert a + b == b;
    } else {
      assert (a + b)[1..] == a[1..] + b;
      CountsAdd(a[1..], b, status, kind);
    }
  }

  datatype QueueStats = QueueStats(pending: nat, running: nat, completed: nat, failed: nat, dead: nat, total: nat,
                                   byKind: map<string, nat>)

  class BackgroundJobQueue {
    const defaultMaxAttempts: int
    const maxBackoffMinutes: nat
    // `repr` of a text
    const quote: string -> string
    var jobs: seq<Job>
    var handlers: set<string>

    // Opening the queue over the rows an earlier process left.
    constructor (rows: seq<Job>, defaultMaxAttempts: int, maxBackoffMinutes: nat, quote: string -> string)
      ensures jobs == ResetAll(rows) && handlers == {}
      ensures this.defaultMaxAttempts == defaultMaxAttempts && this.maxBackoffMinutes == maxBackoffMinutes
      ensures this.quote == quote
    {
      this.defaultMaxAttempts := defaultMaxAttempts;
      this.maxBackoffMinutes := maxBackoffMinutes;
      this.quote := quote;
      jobs := rows;
      handlers := {};
      new;
      ResetOrphans();
      assert jobs == ResetAll(rows);
    }

    method ResetOrphans()
      modifies this`jobs
      ensures |jobs| == |old(jobs)|
      ensures forall i :: 0 <= i < |jobs| ==>
                jobs[i] == if old(jobs)[i].status.Running? then old(jobs)[i].(status := Pending, startedAt := None)
                           else old(jobs)[i]
    {
      jobs := ResetAll(jobs);
    }

    method RegisterHandler(kind: string) returns (ok: bool)
      modifies this`handlers
      ensures ok == (kind != "")
      ensures handlers == if ok then old(handlers) + {kind} else old(handlers)
    {
      ok := kind != "";
      if ok {
        handlers := handlers + {kind};
      }
    }

    method Enqueue(kind: string, payload: string, maxAttempts: Option<int>, now: string) returns (id: nat)
      modifies this`jobs
      ensures id == |old(jobs)|
      ensures var attempts := if maxAttempts.Some? then maxAttempts.value else defaultMaxAttempts;
              jobs == old(jobs)
                + [Job(kind, payload, Pending, 0, if attempts < 1 then 1 else attempts, now, None, None, Some(now),
                       None, None)]
    {
      var attempts := if maxAttempts.Some? then maxAttempts.value else defaultMaxAttempts;
      id := |jobs|;
      jobs := jobs + [NewJob(kind, payload, attempts, now)];
    }

    // The first locked section of `_claim_and_run_one`.
    method ClaimOldest(now: string) returns (claimed: Option<nat>)
      modifies this`jobs
      ensures claimed.None? ==> jobs == old(jobs) && forall j :: 0 <= j < |jobs| ==>
                !(jobs[j].status.Pending? && (jobs[j].nextAttemptAt.None? || LexLe(jobs[j].nextAttemptAt.value, now)))
      ensures claimed.Some? ==>
                && OldestEligible(old(jobs), now, claimed.value)
                && jobs == old(jobs)[claimed.value := old(jobs)[claimed.value].(status := Running,
                    startedAt := Some(now), attempt := old(jobs)[claimed.value].attempt + 1)]
    {
      claimed := None;
      var i := 0;
      while i < |jobs|
        invariant 0 <= i <= |jobs| && jobs == old(jobs)
        invariant claimed.None? ==> forall j :: 0 <= j < i ==> !Eligible(jobs[j], now)
        invariant claimed.Some? ==>
                    && claimed.value < i && Eligible(jobs[claimed.value], now)
                    && forall j :: 0 <= j < i && Eligible(jobs[j], now) ==>
                                     LexLe(jobs[claimed.value].createdAt, jobs[j].createdAt)
      {
        if Eligible(jobs[i], now) {
          LexTotal(jobs[i].createdAt, jobs[i].createdAt);
          if claimed.Some? {
            LexTotal(jobs[i].createdAt, jobs[claimed.value].createdAt);
          }
          if claimed.None? || !LexLe(jobs[claimed.value].createdAt, jobs[i].createdAt) {
            forall j | claimed.Some? && 0 <= j < i && Eligible(jobs[j], now)
              ensures LexLe(jobs[i].createdAt, jobs[j].createdAt)
            {
              LexTransitive(jobs[i].createdAt, jobs[claimed.value].createdAt, jobs[j].createdAt);
            }
            claimed := Some(i);
          }
        }
        i := i + 1;
      }
      if claimed.Some? {
        jobs := jobs[claimed.value := ClaimRow(jobs[claimed.value], now)];
      }
    }

    // The second locked section: the attempt the row shows now.
    method ReloadAttempt(id: nat) returns (attempt: int)
      requires id < |jobs|
      ensures attempt == jobs[id].attempt
    {
      attempt := jobs[id].attempt;
    }

    method Finalise(id: nat, status: Status, error: Option<string>, result: Option<string>, now: string)
      requires id < |jobs|
      modifies this`jobs
      ensures jobs == old(jobs)[id := FinalRow(old(jobs)[id], status, now, error, result)]
    {
      jobs := jobs[id := FinalRow(jobs[id], status, now, error, result)];
    }

    method HandleFailure(id: nat, maxAttempts: int, currentAttempt: nat, message: string, now: nat)
      requires id < |jobs| && currentAttempt >= 1
      requires InRange(now) && InRange(now + 60 * Backoff(maxBackoffMinutes, currentAttempt))
      modifies this`jobs
      ensures jobs == old(jobs)[id := SettledRow(old(jobs)[id], maxBackoffMinutes, currentAttempt, maxAttempts,
          Errored(message), now)]
    {
      if currentAttempt >= maxAttempts {
        Finalise(id, Dead, Some(message), None, Iso(now));
        return;
      }
      var backoffMinutes := Backoff(maxBackoffMinutes, currentAttempt);
      var nextAt := Iso(now + 60 * backoffMinutes);
      jobs := jobs[id := RetryRow(jobs[id], nextAt, message)];
    }

    // `_dispatch`, given what calling the handler comes to if there is one.
    method Dispatch(id: nat, snapshot: Job, currentAttempt: nat, outcome: Outcome, now: nat) returns (settled: Outcome)
      requires id < |jobs| && currentAttempt >= 1 && !outcome.NoHandler?
      requires InRange(now) && InRange(now + 60 * Backoff(maxBackoffMinutes, currentAttempt))
      modifies this`jobs
      ensures settled == if snapshot.kind in handlers then outcome
          else NoHandler("no_handler_for_kind:" + quote(snapshot.kind))
      ensures jobs == old(jobs)[id := SettledRow(old(jobs)[id], maxBackoffMinutes, currentAttempt,
          snapshot.maxAttempts, settled, now)]
      ensures Settled(old(jobs)[id], jobs[id], maxBackoffMinutes, currentAttempt, snapshot.maxAttempts, settled, now)
    {
      if snapshot.kind !in handlers {
        settled := NoHandler("no_handler_for_kind:" + quote(snapshot.kind));
        Finalise(id, Dead, Some(settled.error), None, Iso(now));
        RowIsSettled(old(jobs)[id], maxBackoffMinutes, currentAttempt, snapshot.maxAttempts, settled, now);
        return;
      }
      settled := outcome;
      RowIsSettled(old(jobs)[id], maxBackoffMinutes, currentAttempt, snapshot.maxAttempts, outcome, now);
      match outcome
      case Errored(message) => HandleFailure(id, snapshot.maxAttempts, currentAttempt, message, now);
      case Returned(result) => Finalise(id, Completed, None, result, Iso(now));
      case Lost =>
    }

    method StatusCounts() returns (s: QueueStats)
      ensures s.pending == CountStatus(jobs, Pending) && s.running == CountStatus(jobs, Running)
      ensures s.completed == CountStatus(jobs, Completed) && s.failed == CountStatus(jobs, Failed)
      ensures s.dead == CountStatus(jobs, Dead) && s.total == |jobs| && s.byKind == map[]
      ensures s.pending + s.running + s.completed + s.failed + s.dead == s.total
    {
      s := QueueStats(0, 0, 0, 0, 0, 0, map[]);
      var i := |jobs|;
      while i > 0
        invariant 0 <= i <= |jobs| && s.byKind == map[]
        invariant s.pending == CountStatus(jobs[i..], Pending) && s.running == CountStatus(jobs[i..], Running)
        invariant s.completed == CountStatus(jobs[i..], Completed) && s.failed == CountStatus(jobs[i..], Failed)
        invariant s.dead == CountStatus(jobs[i..], Dead) && s.total == |jobs| - i
        invariant s.pending + s.running + s.completed + s.failed + s.dead == s.total
      {
        i := i - 1;
        assert jobs[i..][1..] == jobs[i + 1..];
        match jobs[i].status {
          case Pending => s := s.(pending := s.pending + 1);
          case Running => s := s.(running := s.running + 1);
          case Completed => s := s.(completed := s.completed + 1);
          case Failed => s := s.(failed := s.failed + 1);
          case Dead => s := s.(dead := s.dead + 1);
        }
        s := s.(total := s.total + 1);
      }
      assert jobs[0..] == jobs;
    }

    method KindCounts() returns (byKind: map<string, nat>)
      ensures forall k :: (if k in byKind then byKind[k] else 0) == CountKind(jobs, k)
      ensures forall k :: k in byKind ==> byKind[k] > 0
    {
      byKind := map[];
      var i := |jobs|;
      while i > 0
        invariant 0 <= i <= |jobs|
        invariant forall k :: (if k in byKind then byKind[k] else 0) == CountKind(jobs[i..], k)
        invariant forall k :: k in byKind ==> byKind[k] > 0
      {
        i := i - 1;
        assert jobs[i..][1..] == jobs[i + 1..];
        var kind := jobs[i].kind;
        byKind := byKind[kind := (if kind in byKind then byKind[kind] else 0) + 1];
      }
      assert jobs[0..] == jobs;
    }

    // The rows of each status, adding up to all rows, and of each kind that occurs.
    method Stats() returns (s: QueueStats)
      ensures s.pending == CountStatus(jobs, Pending) && s.running == CountStatus(jobs, Running)
      ensures s.completed == CountStatus(jobs, Completed) && s.failed == CountStatus(jobs, Failed)
      ensures s.dead == CountStatus(jobs, Dead) && s.total == |jobs|
      ensures s.pending + s.running + s.completed + s.failed + s.dead == s.total
      ensures forall k :: (if k in s.byKind then s.byKind[k] else 0) == CountKind(jobs, k)
      ensures forall k :: k in s.byKind ==> s.byKind[k] > 0
    {
      s := StatusCounts();
      var byKind := KindCounts();
      s := s.(byKind := byKind);
    }
  }
}
