// The aggregator fan-out: provider results arrive in any order and are merged by canonical URL.
module Aggregators {
  import opened Wrappers
  import CanonicalJson

  // A posting; `sourceUrl` is `None` when a provider returned something that is not a string.
  datatype Job = Job(sourceUrl: Option<string>, description: Option<string>, title: string, source: string)

  function Len(j: Job): nat {
    match j.description case None => 0 case Some(d) => |d|
  }

  // ---------------------------------------------------------------- the merge key

  function LowerChar(c: char): char {
    if 'A' <= c <= 'Z' then c - 'A' + 'a' else c
  }

  function Lower(s: string): (r: string)
    ensures |r| == |s| && forall i :: 0 <= i < |s| ==> r[i] == LowerChar(s[i])
  {
    seq(|s|, i requires 0 <= i < |s| => LowerChar(s[i]))
  }

  function WithoutPrefix(s: string, prefix: string): string {
    if prefix <= s then s[|prefix|..] else s
  }

  function StripSlashes(s: string): string {
    if s != "" && s[|s| - 1] == '/' then StripSlashes(s[..|s| - 1]) else s
  }

  // Where the first '/' is.
  function SlashAt(s: string): Option<nat> {
    if s == "" then None
    else if s[0] == '/' then Some(0)
    else match SlashAt(s[1..]) case None => None case Some(k) => Some(k + 1)
  }

  // The lazy `(.+?)(?:\?|#|$)` from position k on: the shortest end at which `?`, `#` or the end of the
  // text follows (`$` also matches before a final newline); a newline inside stops the match.
  function PathEnd(s: string, k: nat): Option<nat>
    requires k <= |s|
    decreases |s| - k
  {
    if k >= 1 && (k == |s| || s[k] == '?' || s[k] == '#' || (s[k] == '\n' && k + 1 == |s|)) then Some(k)
    else if k == |s| || s[k] == '\n' then None
    else PathEnd(s, k + 1)
  }

  lemma {:induction false} PathEndBound(s: string, k: nat)
    requires k <= |s|
    ensures PathEnd(s, k).Some? ==> 1 <= PathEnd(s, k).value <= |s|
    decreases |s| - k
  {
    if k < |s| { PathEndBound(s, k + 1); }
  }

  lemma {:induction false} SlashAtBound(s: string)
    ensures SlashAt(s).Some? ==> SlashAt(s).value < |s|
  {
    if s != "" { SlashAtBound(s[1..]); }
  }

  function AfterScheme(url: string): Option<string> {
    if "https://" <= url then Some(url[8..]) else if "http://" <= url then Some(url[7..]) else None
  }

  // `host/path` of a web address, canonicalised; `None` when the pattern does not match.
  function HostPath(url: string): Option<string> {
    match AfterScheme(url)
    case None => None
    case Some(r) =>
      SlashAtBound(r);
      if SlashAt(r).None? || SlashAt(r).value == 0 then None
      else
        var k := SlashAt(r).value;
        var tail := r[k + 1..];
        PathEndBound(tail, 0);
        match PathEnd(tail, 0)
        case None => None
        case Some(e) =>
          Some(WithoutPrefix(Lower(r[..k]), "www.") + "/" + StripSlashes(Lower(tail[..e])))
  }

  datatype Key = Skipped | ByUrl(text: string) | NoUrl

  function KeyOf(j: Job): Key {
    match j.sourceUrl
    case None => Skipped
    case Some(url) =>
      match HostPath(url)
      case Some(text) => ByUrl(text)
      case None => if url != "" then ByUrl(url) else NoUrl
  }

  // ---------------------------------------------------------------- the merge

  // A dict in insertion order.
  datatype Seen = Seen(order: seq<string>, best: map<string, Job>)

  function NoUrlKey(n: nat): string { "\U{0000}nourl-" + CanonicalJson.DecNat(n) }

  function Put(s: Seen, key: string, j: Job): Seen {
    if key !in s.best then Seen(s.order + [key], s.best[key := j])
    else if Len(j) > Len(s.best[key]) then s.(best := s.best[key := j])
    else s
  }

  function Absorb(s: Seen, counter: nat, jobs: seq<Job>): Seen
    decreases |jobs|
  {
    if jobs == [] then s
    else match KeyOf(jobs[0])
      case Skipped => Absorb(s, counter, jobs[1..])
      case ByUrl(text) => Absorb(Put(s, text, jobs[0]), counter, jobs[1..])
      case NoUrl => Absorb(Put(s, NoUrlKey(counter), jobs[0]), counter + 1, jobs[1..])
  }

  ghost predicate SeenOk(s: Seen) {
    && (forall k :: k in s.order <==> k in s.best)
    && (forall i, k :: 0 <= i < k < |s.order| ==> s.order[i] != s.order[k])
  }

  function Values(s: Seen): (r: seq<Job>)
    requires forall k :: k in s.order ==> k in s.best
    ensures |r| == |s.order| && forall i :: 0 <= i < |r| ==> r[i] == s.best[s.order[i]]
  {
    seq(|s.order|, i requires 0 <= i < |s.order| => s.best[s.order[i]])
  }

  lemma PutKeepsOk(s: Seen, key: string, j: Job)
    requires SeenOk(s)
    ensures SeenOk(Put(s, key, j))
  {
  }

  lemma {:induction false} AbsorbKeepsOk(s: Seen, counter: nat, jobs: seq<Job>)
    requires SeenOk(s)
    ensures SeenOk(Absorb(s, counter, jobs))
    decreases |jobs|
  {
    if jobs != [] {
      match KeyOf(jobs[0])
      case Skipped => AbsorbKeepsOk(s, counter, jobs[1..]);
      case ByUrl(text) => PutKeepsOk(s, text, jobs[0]); AbsorbKeepsOk(Put(s, text, jobs[0]), counter, jobs[1..]);
      case NoUrl =>
        PutKeepsOk(s, NoUrlKey(counter), jobs[0]);
        AbsorbKeepsOk(Put(s, NoUrlKey(counter), jobs[0]), counter + 1, jobs[1..]);
    }
  }

  const NOTHING := Seen([], map[])

  function Merged(jobs: seq<Job>): seq<Job> {
    AbsorbKeepsOk(NOTHING, 0, jobs);
    Values(Absorb(NOTHING, 0, jobs))
  }

  // ---------------------------------------------------------------- the fan-out

  datatype Outcome = Outcome(provider: string, jobCount: nat, cached: bool, error: Option<string>)

  // What one provider's task returned, with the name it was submitted under.
  datatype Arrival = Arrival(provider: string, outcome: Outcome, jobs: seq<Job>)

  // What is reported of a task as it completes.
  datatype Report = ProviderOk(provider: string, jobCount: nat, cached: bool)
      | ProviderError(provider: string, error: string)

  function ReportOf(a: Arrival): Report {
    var error := OrEmpty(a.outcome.error);
    if error != "" && error != "skipped_remote_only_for_location_search" then ProviderError(a.provider, error)
    else ProviderOk(a.provider, a.outcome.jobCount, a.outcome.cached)
  }

  function Reports(arrivals: seq<Arrival>): (r: seq<Report>)
    ensures |r| == |arrivals| && forall i :: 0 <= i < |r| ==> r[i] == ReportOf(arrivals[i])
  {
    seq(|arrivals|, i requires 0 <= i < |arrivals| => ReportOf(arrivals[i]))
  }

  // A task is reported with its error, if it has one but the one that only says it was not asked, and else with its
  // count.
  predicate ReportTells(r: Report, a: Arrival) {
    if a.outcome.error.Some? && a.outcome.error.value != ""
       && a.outcome.error.value != "skipped_remote_only_for_location_search" then
      r == ProviderError(a.provider, a.outcome.error.value)
    else r == ProviderOk(a.provider, a.outcome.jobCount, a.outcome.cached)
  }

  function AllJobs(arrivals: seq<Arrival>): seq<Job> {
    if arrivals == [] then [] else arrivals[0].jobs + AllJobs(arrivals[1..])
  }

  function OutcomeMap(arrivals: seq<Arrival>): map<string, Outcome> {
    if arrivals == [] then map[]
    else
      var n := |arrivals| - 1;
      OutcomeMap(arrivals[..n])[arrivals[n].provider := arrivals[n].outcome]
  }

  // Queried providers in their own order; those without an outcome are left out.
  function Ordered(toQuery: seq<string>, outcomes: map<string, Outcome>): seq<Outcome> {
    if toQuery == [] then []
    else (if toQuery[0] in outcomes then [outcomes[toQuery[0]]] else []) + Ordered(toQuery[1..], outcomes)
  }

  // The postings of one task after those of another.
  lemma {:induction false} JobsConcat(a: seq<Arrival>, b: seq<Arrival>)
    ensures AllJobs(a + b) == AllJobs(a) + AllJobs(b)
    ensures forall x: Arrival :: AllJobs([x]) == x.jobs
  {
    forall x: Arrival ensures AllJobs([x]) == x.jobs {
      assert [x][1..] == [];
      assert x.jobs + [] == x.jobs;
    }
    if a == [] {
      assert a + b == b;
    } else {
      assert (a + b)[1..] == a[1..] + b;
      JobsConcat(a[1..], b);
    }
  }

  // The last outcome that arrived for each provider counts.
  lemma {:induction false} LastOutcomeCounts(arrivals: seq<Arrival>, provider: string)
    ensures provider in OutcomeMap(arrivals) <==> exists i :: 0 <= i < |arrivals| && arrivals[i].provider == provider
    ensures provider in OutcomeMap(arrivals) ==>
              exists i :: 0 <= i < |arrivals| && arrivals[i].provider == provider
                && OutcomeMap(arrivals)[provider] == arrivals[i].outcome
                && forall k :: i < k < |arrivals| ==> arrivals[k].provider != provider
  {
    if arrivals != [] {
      var n := |arrivals| - 1;
      LastOutcomeCounts(arrivals[..n], provider);
      if arrivals[n].provider != provider && provider in OutcomeMap(arrivals[..n]) {
        var i :| 0 <= i < n && arrivals[..n][i].provider == provider
          && OutcomeMap(arrivals[..n])[provider] == arrivals[..n][i].outcome
          && forall k :: i < k < n ==> arrivals[..n][k].provider != provider;
        assert arrivals[i].provider == provider;
        assert forall k :: i < k < n ==> arrivals[k] == arrivals[..n][k];
      }
    }
  }

  // Every provider asked has its place, as long as an outcome arrived for each.
  lemma {:induction false} OrderedAsAsked(toQuery: seq<string>, outcomes: map<string, Outcome>)
    ensures |Ordered(toQuery, outcomes)| <= |toQuery|
    ensures (forall i :: 0 <= i < |toQuery| ==> toQuery[i] in outcomes) ==>
              && |Ordered(toQuery, outcomes)| == |toQuery|
              && forall i :: 0 <= i < |toQuery| ==> Ordered(toQuery, outcomes)[i] == outcomes[toQuery[i]]
  {
    if toQuery != [] { OrderedAsAsked(toQuery[1..], outcomes); }
  }

  // With one task for every provider asked, the outcomes stand in the order of the providers, whatever the order in
  // which the tasks completed.
  lemma OutcomesAreTheirs(toQuery: seq<string>, arrivals: seq<Arrival>)
    requires forall i :: 0 <= i < |toQuery| ==> Arrives(arrivals, toQuery[i])
    ensures |Ordered(toQuery, OutcomeMap(arrivals))| == |toQuery|
    ensures forall i, k :: 0 <= i < |toQuery| && OnlyTask(arrivals, k, toQuery[i]) ==>
              Ordered(toQuery, OutcomeMap(arrivals))[i] == arrivals[k].outcome
  {
    forall i | 0 <= i < |toQuery| ensures toQuery[i] in OutcomeMap(arrivals) {
      LastOutcomeCounts(arrivals, toQuery[i]);
    }
    OrderedAsAsked(toQuery, OutcomeMap(arrivals));
    forall i, k | 0 <= i < |toQuery| && OnlyTask(arrivals, k, toQuery[i])
      ensures Ordered(toQuery, OutcomeMap(arrivals))[i] == arrivals[k].outcome
    {
      LastOutcomeCounts(arrivals, toQuery[i]);
    }
  }

  predicate Arrives(arrivals: seq<Arrival>, provider: string) {
    exists k :: 0 <= k < |arrivals| && arrivals[k].provider == provider
  }

  predicate OnlyTask(arrivals: seq<Arrival>, k: int, provider: string) {
    && 0 <= k < |arrivals| && arrivals[k].provider == provider
    && forall m :: 0 <= m < |arrivals| && arrivals[m].provider == provider ==> m == k
  }

  // Taking in the tasks as they complete.
  method Accumulate(arrivals: seq<Arrival>)
      returns (jobs: seq<Job>, outcomes: map<string, Outcome>, reports: seq<Report>)
    ensures jobs == AllJobs(arrivals) && outcomes == OutcomeMap(arrivals) && reports == Reports(arrivals)
  {
    jobs, outcomes, reports := [], map[], [];
    var i := 0;
    while i < |arrivals|
      invariant 0 <= i <= |arrivals|
      invariant AllJobs(arrivals) == jobs + AllJobs(arrivals[i..])
      invariant outcomes == OutcomeMap(arrivals[..i])
      invariant |reports| == i && forall k :: 0 <= k < i ==> reports[k] == ReportOf(arrivals[k])
    {
      assert arrivals[i..][1..] == arrivals[i + 1..];
      assert arrivals[..i + 1][..i] == arrivals[..i];
      outcomes := outcomes[arrivals[i].provider := arrivals[i].outcome];
      jobs := jobs + arrivals[i].jobs;
      reports := reports + [ReportOf(arrivals[i])];
      i := i + 1;
    }
    assert arrivals[..i] == arrivals;
  }

  // The cross-provider merge.
  method Merge(accumulated: seq<Job>) returns (jobs: seq<Job>)
    ensures jobs == Merged(accumulated)
  {
    var order: seq<string>, best: map<string, Job> := [], map[];
    var counter := 0;
    var k := 0;
    while k < |accumulated|
      invariant 0 <= k <= |accumulated|
      invariant SeenOk(Seen(order, best))
      invariant Absorb(NOTHING, 0, accumulated) == Absorb(Seen(order, best), counter, accumulated[k..])
    {
      var job := accumulated[k];
      assert accumulated[k..][1..] == accumulated[k + 1..];
      var key := KeyOf(job);
      if key != Skipped {
        var hostPath := if key.ByUrl? then key.text else NoUrlKey(counter);
        if key.NoUrl? { counter := counter + 1; }
        PutKeepsOk(Seen(order, best), hostPath, job);
        if hostPath !in best {
          order := order + [hostPath];
          best := best[hostPath := job];
        } else if Len(job) > Len(best[hostPath]) {
          best := best[hostPath := job];
        }
      }
      k := k + 1;
    }
    jobs := Values(Seen(order, best));
  }

  // Outcomes in provider order, the skipped ones at the end.
  method OrderOutcomes(toQuery: seq<string>, found: map<string, Outcome>, skipped: seq<Outcome>)
      returns (outcomes: seq<Outcome>)
    ensures outcomes == Ordered(toQuery, found) + skipped
  {
    outcomes := [];
    var n := 0;
    while n < |toQuery|
      invariant 0 <= n <= |toQuery|
      invariant Ordered(toQuery, found) == outcomes + Ordered(toQuery[n..], found)
    {
      assert toQuery[n..][1..] == toQuery[n + 1..];
      if toQuery[n] in found {
        outcomes := outcomes + [found[toQuery[n]]];
      }
      n := n + 1;
    }
    outcomes := outcomes + skipped;
  }

  // The part of `search_streaming` behind the executor, given the tasks in completion order.
  method Collect(toQuery: seq<string>, arrivals: seq<Arrival>, skipped: seq<Outcome>)
    returns (jobs: seq<Job>, outcomes: seq<Outcome>, reports: seq<Report>)
    ensures jobs == Merged(AllJobs(arrivals))
    ensures outcomes == Ordered(toQuery, OutcomeMap(arrivals)) + skipped
    ensures reports == Reports(arrivals)
    ensures |reports| == |arrivals|
    ensures forall i :: 0 <= i < |arrivals| ==> ReportTells(reports[i], arrivals[i])
  {
    var accumulated, found;
    accumulated, found, reports := Accumulate(arrivals);
    jobs := Merge(accumulated);
    outcomes := OrderOutcomes(toQuery, found, skipped);
  }
}
