// The merge of the aggregator fan-out against an order-free description, and what follows for the
// order in which providers complete.
module MergeConfluence {
  import opened Wrappers
  import opened Sequences
  import opened Aggregators
  import CanonicalJson

  function NoUrls(jobs: seq<Job>): seq<Job> {
    if jobs == [] then []
    else
      var n := |jobs| - 1;
      NoUrls(jobs[..n]) + (if KeyOf(jobs[n]).NoUrl? then [jobs[n]] else [])
  }

  // No posting's URL is, literally, one of the keys made up for the postings without one.
  ghost predicate NoClash(jobs: seq<Job>) {
    forall j, n: nat :: j in jobs && n < |NoUrls(jobs)| ==> KeyOf(j) != ByUrl(NoUrlKey(n))
  }

  predicate Has(j: Job, key: string) { KeyOf(j) == ByUrl(key) }

  function UrlKeys(jobs: seq<Job>): set<string> {
    set j | j in jobs && KeyOf(j).ByUrl? :: KeyOf(j).text
  }

  ghost predicate LongestFor(jobs: seq<Job>, key: string, j: Job) {
    j in jobs && Has(j, key) && forall k :: k in jobs && Has(k, key) ==> Len(k) <= Len(j)
  }

  lemma NoUrlsAppend(jobs: seq<Job>, j: Job)
    ensures NoUrls(jobs + [j]) == NoUrls(jobs) + (if KeyOf(j).NoUrl? then [j] else [])
  {
    assert (jobs + [j])[..|jobs|] == jobs;
  }

  lemma {:induction false} NoUrlsUpdate(jobs: seq<Job>, i: nat, j: Job)
    requires i < |jobs| && !KeyOf(jobs[i]).NoUrl? && !KeyOf(j).NoUrl?
    ensures NoUrls(jobs[i := j]) == NoUrls(jobs)
  {
    var n := |jobs| - 1;
    if i < n {
      assert jobs[i := j][..n] == jobs[..n][i := j];
      NoUrlsUpdate(jobs[..n], i, j);
    } else {
      assert jobs[i := j][..n] == jobs[..n];
    }
  }

  lemma NoUrlKeyInjective(m: nat, n: nat)
    ensures NoUrlKey(m) == NoUrlKey(n) ==> m == n
  {
    var p := "\U{0000}nourl-";
    assert CanonicalJson.DecNat(m) == NoUrlKey(m)[|p|..] && CanonicalJson.DecNat(n) == NoUrlKey(n)[|p|..];
    if CanonicalJson.DecNat(m) == CanonicalJson.DecNat(n) {
      CanonicalJson.DecNatInjective(m, n);
    }
  }

  lemma UrlKeysAppend(r: seq<Job>, j: Job)
    ensures UrlKeys(r + [j]) == UrlKeys(r) + (if KeyOf(j).ByUrl? then {KeyOf(j).text} else {})
  {
    assert forall k :: k in r + [j] <==> k in r || k == j;
  }

  // ---------------------------------------------------------------- the keys

  function MadeUpKeys(n: nat): set<string> {
    if n == 0 then {} else MadeUpKeys(n - 1) + {NoUrlKey(n - 1)}
  }

  // The keys the merge uses for the postings of the list.
  function KeysUsed(jobs: seq<Job>): set<string> {
    UrlKeys(jobs) + MadeUpKeys(|NoUrls(jobs)|)
  }

  lemma KeysUsedAppend(jobs: seq<Job>, j: Job)
    ensures KeysUsed(jobs + [j]) ==
            KeysUsed(jobs) +
            (match KeyOf(j) case Skipped => {} case ByUrl(text) => {text} case NoUrl => {NoUrlKey(|NoUrls(jobs)|)})
  {
    UrlKeysAppend(jobs, j);
    NoUrlsAppend(jobs, j);
  }

  lemma PutKeys(s: Seen, key: string, j: Job)
    ensures Put(s, key, j).best.Keys == s.best.Keys + {key}
  {
  }

  lemma {:induction false} MadeUpKeysAre(n: nat, k: string)
    ensures k in MadeUpKeys(n) <==> exists m: nat :: m < n && k == NoUrlKey(m)
  {
    if n > 0 {
      MadeUpKeysAre(n - 1, k);
    }
  }

  // ---------------------------------------------------------------- the survivors

  // The key the merge uses for posting i.
  function TextAt(jobs: seq<Job>, i: nat): Option<string>
    requires i < |jobs|
  {
    match KeyOf(jobs[i])
    case Skipped => None
    case ByUrl(text) => Some(text)
    case NoUrl => Some(NoUrlKey(|NoUrls(jobs[..i])|))
  }

  // Posting i is the first of the longest under the key the merge uses.
  ghost predicate FirstLongestAt(jobs: seq<Job>, key: string, i: nat) {
    && i < |jobs| && TextAt(jobs, i) == Some(key)
    && (forall k :: 0 <= k < i && TextAt(jobs, k) == Some(key) ==> Len(jobs[k]) < Len(jobs[i]))
    && (forall k :: i < k < |jobs| && TextAt(jobs, k) == Some(key) ==> Len(jobs[k]) <= Len(jobs[i]))
  }

  ghost predicate FirstLongest(jobs: seq<Job>, key: string, j: Job) {
    exists i: nat :: FirstLongestAt(jobs, key, i) && jobs[i] == j
  }

  ghost predicate Tracks(s: Seen, done: seq<Job>) {
    && SeenOk(s)
    && (forall k :: k in s.best ==> FirstLongest(done, k, s.best[k]))
    && (forall i :: 0 <= i < |done| && TextAt(done, i).Some? ==> TextAt(done, i).value in s.best)
  }

  lemma TextStays(done: seq<Job>, j: Job, i: nat)
    requires i < |done|
    ensures TextAt(done + [j], i) == TextAt(done, i)
  {
    assert (done + [j])[..i] == done[..i];
  }

  lemma LongestStays(done: seq<Job>, j: Job, key: string, i: nat)
    requires FirstLongestAt(done, key, i)
    requires TextAt(done + [j], |done|) == Some(key) ==> Len(j) <= Len(done[i])
    ensures FirstLongestAt(done + [j], key, i)
  {
    forall k | 0 <= k < |done| ensures TextAt(done + [j], k) == TextAt(done, k) {
      TextStays(done, j, k);
    }
  }

  lemma LongestMoves(done: seq<Job>, j: Job, key: string)
    requires TextAt(done + [j], |done|) == Some(key)
    requires forall k :: 0 <= k < |done| && TextAt(done, k) == Some(key) ==> Len(done[k]) < Len(j)
    ensures FirstLongestAt(done + [j], key, |done|)
  {
    forall k | 0 <= k < |done| ensures TextAt(done + [j], k) == TextAt(done, k) {
      TextStays(done, j, k);
    }
  }

  lemma OthersTracked(s: Seen, done: seq<Job>, j: Job, key: string)
    requires Tracks(s, done) && key in s.best && TextAt(done + [j], |done|) != Some(key)
    ensures FirstLongest(done + [j], key, s.best[key])
  {
    var i: nat :| FirstLongestAt(done, key, i) && done[i] == s.best[key];
    LongestStays(done, j, key, i);
    assert (done + [j])[i] == s.best[key];
  }

  lemma PutTracked(s: Seen, done: seq<Job>, j: Job, key: string)
    requires Tracks(s, done) && TextAt(done + [j], |done|) == Some(key)
    ensures FirstLongest(done + [j], key, Put(s, key, j).best[key])
  {
    assert (done + [j])[|done|] == j;
    if key !in s.best {
      LongestMoves(done, j, key);
    } else {
      PutOverTracked(s, done, j, key);
    }
  }

  lemma PutOverTracked(s: Seen, done: seq<Job>, j: Job, key: string)
    requires Tracks(s, done) && TextAt(done + [j], |done|) == Some(key) && key in s.best
    ensures FirstLongest(done + [j], key, Put(s, key, j).best[key])
  {
    var i: nat :| FirstLongestAt(done, key, i) && done[i] == s.best[key];
    if Len(j) > Len(s.best[key]) {
      LongerThanAll(done, j, key, i);
      LongestMoves(done, j, key);
      assert (done + [j])[|done|] == j;
    } else {
      LongestStays(done, j, key, i);
      assert (done + [j])[i] == s.best[key];
    }
  }

  lemma LongerThanAll(done: seq<Job>, j: Job, key: string, i: nat)
    requires FirstLongestAt(done, key, i) && Len(j) > Len(done[i])
    ensures forall k :: 0 <= k < |done| && TextAt(done, k) == Some(key) ==> Len(done[k]) < Len(j)
  {
    forall k | 0 <= k < |done| && TextAt(done, k) == Some(key) ensures Len(done[k]) < Len(j) {
      assert k < i || k == i || k > i;
    }
  }

  lemma TextsKnown(s: Seen, done: seq<Job>, j: Job, s': Seen)
    requires Tracks(s, done) && s.best.Keys <= s'.best.Keys
    requires TextAt(done + [j], |done|).Some? ==> TextAt(done + [j], |done|).value in s'.best
    ensures forall i :: 0 <= i <= |done| && TextAt(done + [j], i).Some? ==> TextAt(done + [j], i).value in s'.best
  {
    forall i | 0 <= i <= |done| && TextAt(done + [j], i).Some? ensures TextAt(done + [j], i).value in s'.best {
      if i < |done| { TextStays(done, j, i); assert TextAt(done, i).value in s.best; }
    }
  }

  lemma PutTracks(s: Seen, done: seq<Job>, j: Job, key: string)
    requires Tracks(s, done) && TextAt(done + [j], |done|) == Some(key)
    ensures Tracks(Put(s, key, j), done + [j])
  {
    var s' := Put(s, key, j);
    PutKeepsOk(s, key, j);
    PutTracked(s, done, j, key);
    TextsKnown(s, done, j, s');
    forall k | k in s'.best ensures FirstLongest(done + [j], k, s'.best[k]) {
      if k != key { OthersTracked(s, done, j, k); }
    }
  }

  lemma SkipTracks(s: Seen, done: seq<Job>, j: Job)
    requires Tracks(s, done) && TextAt(done + [j], |done|) == None
    ensures Tracks(s, done + [j])
  {
    TextsKnown(s, done, j, s);
    forall k | k in s.best ensures FirstLongest(done + [j], k, s.best[k]) {
      OthersTracked(s, done, j, k);
    }
  }

  lemma NextText(done: seq<Job>, j: Job)
    ensures TextAt(done + [j], |done|) ==
            match KeyOf(j)
            case Skipped => None
            case ByUrl(text) => Some(text)
            case NoUrl => Some(NoUrlKey(|NoUrls(done)|))
  {
    assert (done + [j])[..|done|] == done;
  }

  // ---------------------------------------------------------------- postings without a URL

  lemma ValuesPut(s: Seen, key: string, j: Job)
    requires SeenOk(s)
    ensures SeenOk(Put(s, key, j))
    ensures key !in s.best ==> Values(Put(s, key, j)) == Values(s) + [j]
    ensures key in s.best && Len(j) > Len(s.best[key]) ==>
              exists i :: 0 <= i < |s.order| && s.order[i] == key && Values(Put(s, key, j)) == Values(s)[i := j]
  {
    PutKeepsOk(s, key, j);
    if key in s.best && Len(j) > Len(s.best[key]) {
      var i :| 0 <= i < |s.order| && s.order[i] == key;
      assert Values(Put(s, key, j)) == Values(s)[i := j];
    }
  }

  lemma NotMadeUp(all: seq<Job>, text: string, n: nat)
    requires NoClash(all) && text in UrlKeys(all) && n < |NoUrls(all)|
    ensures text != NoUrlKey(n)
  {
    var j :| j in all && KeyOf(j).ByUrl? && KeyOf(j).text == text;
    assert KeyOf(j) == ByUrl(text);
  }

  lemma {:induction false} NoUrlsGrow(done: seq<Job>, jobs: seq<Job>)
    ensures |NoUrls(done + jobs)| >= |NoUrls(done)|
  {
    if jobs == [] {
      assert done + jobs == done;
    } else {
      var n := |jobs| - 1;
      NoUrlsGrow(done, jobs[..n]);
      assert done + jobs == (done + jobs[..n]) + [jobs[n]];
      NoUrlsAppend(done + jobs[..n], jobs[n]);
    }
  }

  lemma NoUrlIndex(jobs: seq<Job>, k: nat)
    requires k < |jobs| && KeyOf(jobs[k]).NoUrl?
    ensures |NoUrls(jobs[..k])| < |NoUrls(jobs)|
  {
    NoUrlsAppend(jobs[..k], jobs[k]);
    NoUrlsGrow(jobs[..k] + [jobs[k]], jobs[k + 1..]);
    assert jobs == (jobs[..k] + [jobs[k]]) + jobs[k + 1..];
  }

  // A URL some posting has is the key of postings with that URL only.
  lemma OwnPlace(done: seq<Job>, all: seq<Job>, k: nat, text: string)
    requires NoClash(all) && text in UrlKeys(all) && |NoUrls(done)| <= |NoUrls(all)|
    requires k < |done| && TextAt(done, k) == Some(text)
    ensures KeyOf(done[k]) == ByUrl(text)
  {
    if KeyOf(done[k]).NoUrl? {
      NoUrlIndex(done, k);
      NotMadeUp(all, text, |NoUrls(done[..k])|);
    }
  }

  lemma TakeNoUrlValues(s: Seen, key: string, done: seq<Job>, j: Job)
    requires SeenOk(s) && NoUrls(Values(s)) == NoUrls(done) && KeyOf(j).NoUrl? && key !in s.best
    ensures SeenOk(Put(s, key, j)) && NoUrls(Values(Put(s, key, j))) == NoUrls(done + [j])
  {
    ValuesPut(s, key, j);
    NoUrlsAppend(done, j);
    NoUrlsAppend(Values(s), j);
  }

  lemma UrlEntry(s: Seen, done: seq<Job>, text: string, all: seq<Job>)
    requires Tracks(s, done) && text in s.best
    requires NoClash(all) && text in UrlKeys(all) && |NoUrls(done)| <= |NoUrls(all)|
    ensures KeyOf(s.best[text]).ByUrl?
  {
    var i: nat :| FirstLongestAt(done, text, i) && done[i] == s.best[text];
    OwnPlace(done, all, i, text);
  }

  lemma TakeUrlValues(s: Seen, done: seq<Job>, j: Job, text: string, all: seq<Job>)
    requires Tracks(s, done) && NoUrls(Values(s)) == NoUrls(done) && Has(j, text)
    requires NoClash(all) && text in UrlKeys(all) && |NoUrls(done)| <= |NoUrls(all)|
    ensures SeenOk(Put(s, text, j)) && NoUrls(Values(Put(s, text, j))) == NoUrls(done + [j])
  {
    ValuesPut(s, text, j);
    NoUrlsAppend(done, j);
    NoUrlsAppend(Values(s), j);
    if text in s.best && Len(j) > Len(s.best[text]) {
      UrlEntry(s, done, text, all);
      var p :| 0 <= p < |s.order| && s.order[p] == text && Values(Put(s, text, j)) == Values(s)[p := j];
      NoUrlsUpdate(Values(s), p, j);
    }
  }

  lemma FreshKey(done: seq<Job>, all: seq<Job>)
    requires NoClash(all) && |NoUrls(done)| < |NoUrls(all)| && forall d :: d in done ==> d in all
    ensures NoUrlKey(|NoUrls(done)|) !in KeysUsed(done)
  {
    var n := |NoUrls(done)|;
    MadeUpKeysAre(n, NoUrlKey(n));
    if NoUrlKey(n) in MadeUpKeys(n) {
      var m: nat :| m < n && NoUrlKey(n) == NoUrlKey(m);
      NoUrlKeyInjective(m, n);
    }
  }

  // ---------------------------------------------------------------- one induction over the postings

  // What has been seen stands for the postings taken in so far: their keys, the first of the longest under
  // each, and, where nothing clashes, the postings without a URL in order.
  ghost predicate Whole(s: Seen, done: seq<Job>, all: seq<Job>) {
    && Tracks(s, done)
    && s.best.Keys == KeysUsed(done)
    && (NoClash(all) ==> NoUrls(Values(s)) == NoUrls(done))
  }

  // What one posting does.
  function Took(s: Seen, counter: nat, j: Job): Seen {
    match KeyOf(j)
    case Skipped => s
    case ByUrl(text) => Put(s, text, j)
    case NoUrl => Put(s, NoUrlKey(counter), j)
  }

  lemma PrefixFacts(done: seq<Job>, j: Job, all: seq<Job>)
    requires done + [j] <= all
    ensures forall d :: d in done ==> d in all
    ensures KeyOf(j).ByUrl? ==> KeyOf(j).text in UrlKeys(all)
    ensures |NoUrls(done)| + (if KeyOf(j).NoUrl? then 1 else 0) <= |NoUrls(all)|
  {
    var n := |done| + 1;
    assert all == (done + [j]) + all[n..];
    NoUrlsAppend(done, j);
    NoUrlsGrow(done + [j], all[n..]);
    assert forall d :: d in done + [j] ==> d in all;
    assert j in done + [j];
  }

  lemma TookValues(s: Seen, done: seq<Job>, j: Job, all: seq<Job>)
    requires Tracks(s, done) && s.best.Keys == KeysUsed(done) && NoUrls(Values(s)) == NoUrls(done)
    requires NoClash(all) && done + [j] <= all
    ensures var s' := Took(s, |NoUrls(done)|, j); SeenOk(s') && NoUrls(Values(s')) == NoUrls(done + [j])
  {
    PrefixFacts(done, j, all);
    match KeyOf(j)
    case Skipped => NoUrlsAppend(done, j);
    case ByUrl(text) => TakeUrlValues(s, done, j, text, all);
    case NoUrl =>
      FreshKey(done, all);
      TakeNoUrlValues(s, NoUrlKey(|NoUrls(done)|), done, j);
  }

  lemma TookTracks(s: Seen, done: seq<Job>, j: Job)
    requires Tracks(s, done) && s.best.Keys == KeysUsed(done)
    ensures var s' := Took(s, |NoUrls(done)|, j); Tracks(s', done + [j]) && s'.best.Keys == KeysUsed(done + [j])
  {
    NextText(done, j);
    KeysUsedAppend(done, j);
    match KeyOf(j)
    case Skipped => SkipTracks(s, done, j);
    case ByUrl(text) => PutKeys(s, text, j); PutTracks(s, done, j, text);
    case NoUrl => PutKeys(s, NoUrlKey(|NoUrls(done)|), j); PutTracks(s, done, j, NoUrlKey(|NoUrls(done)|));
  }

  lemma TookWhole(s: Seen, done: seq<Job>, j: Job, all: seq<Job>)
    requires Whole(s, done, all) && done + [j] <= all
    ensures Whole(Took(s, |NoUrls(done)|, j), done + [j], all)
  {
    TookTracks(s, done, j);
    if NoClash(all) { TookValues(s, done, j, all); }
  }

  // An invariant that every posting of the list keeps holds at its end.
  ghost predicate Step(inv: (Seen, seq<Job>) -> bool, all: seq<Job>) {
    forall s, done, j :: inv(s, done) && done + [j] <= all ==> inv(Took(s, |NoUrls(done)|, j), done + [j])
  }

  lemma {:induction false} AbsorbKeeps(inv: (Seen, seq<Job>) -> bool, s: Seen, counter: nat, done: seq<Job>,
                                       jobs: seq<Job>, all: seq<Job>)
    requires all == done + jobs && inv(s, done) && counter == |NoUrls(done)| && Step(inv, all)
    ensures inv(Absorb(s, counter, jobs), all)
    decreases |jobs|
  {
    if jobs == [] {
      assert all == done;
    } else {
      var j, rest := jobs[0], jobs[1..];
      assert all == (done + [j]) + rest;
      NoUrlsAppend(done, j);
      AbsorbKeeps(inv, Took(s, counter, j), counter + (if KeyOf(j).NoUrl? then 1 else 0), done + [j], rest, all);
    }
  }

  lemma MergedWhole(jobs: seq<Job>)
    ensures Whole(Absorb(NOTHING, 0, jobs), jobs, jobs)
  {
    var inv := (s, done) => Whole(s, done, jobs);
    forall s, done, j | inv(s, done) && done + [j] <= jobs ensures inv(Took(s, |NoUrls(done)|, j), done + [j]) {
      TookWhole(s, done, j, jobs);
    }
    assert UrlKeys([]) == {} && Values(NOTHING) == [];
    assert [] + jobs == jobs;
    AbsorbKeeps(inv, NOTHING, 0, [], jobs, jobs);
  }

  // ---------------------------------------------------------------- what the merge lists

  // The list holds, for each of the keys once, the first of the longest postings under it.
  ghost predicate Lists(jobs: seq<Job>, r: seq<Job>, keys: seq<string>) {
    && |keys| == |r|
    && (forall i, k :: 0 <= i < k < |keys| ==> keys[i] != keys[k])
    && (forall i :: 0 <= i < |jobs| && TextAt(jobs, i).Some? ==> TextAt(jobs, i).value in keys)
    && (forall i :: 0 <= i < |r| ==> FirstLongest(jobs, keys[i], r[i]))
  }

  // For every list of postings, whatever their URLs, this is what the merge returns.
  lemma MergeListsLongest(jobs: seq<Job>) returns (keys: seq<string>)
    ensures Lists(jobs, Merged(jobs), keys)
  {
    MergedWhole(jobs);
    keys := Absorb(NOTHING, 0, jobs).order;
  }

  lemma LongestUnderUrl(jobs: seq<Job>, key: string, i: nat)
    requires FirstLongestAt(jobs, key, i) && KeyOf(jobs[i]).ByUrl?
    ensures LongestFor(jobs, key, jobs[i])
  {
    forall b | b in jobs && Has(b, key) ensures Len(b) <= Len(jobs[i]) {
      var k :| 0 <= k < |jobs| && jobs[k] == b;
      assert TextAt(jobs, k) == Some(key);
    }
  }

  // A survivor with a URL is one of the longest postings with it.
  lemma UrlSurvivorIsLongest(jobs: seq<Job>, a: Job)
    requires a in Merged(jobs) && KeyOf(a).ByUrl?
    ensures LongestFor(jobs, KeyOf(a).text, a)
  {
    var keys := MergeListsLongest(jobs);
    var n :| 0 <= n < |Merged(jobs)| && Merged(jobs)[n] == a;
    var i: nat :| FirstLongestAt(jobs, keys[n], i) && jobs[i] == a;
    LongestUnderUrl(jobs, keys[n], i);
  }

  // ---------------------------------------------------------------- how many survive

  lemma {:induction false} OrderCount(order: seq<string>, keys: set<string>)
    requires forall i, k :: 0 <= i < k < |order| ==> order[i] != order[k]
    requires forall k :: k in order <==> k in keys
    ensures |order| == |keys|
  {
    if order != [] {
      var n := |order| - 1;
      var rest := keys - {order[n]};
      forall k ensures k in order[..n] <==> k in rest {
        if k in rest {
          var i :| 0 <= i < |order| && order[i] == k;
        }
      }
      OrderCount(order[..n], rest);
      assert keys == rest + {order[n]};
    } else {
      assert keys == {};
    }
  }

  lemma MergedCount(jobs: seq<Job>)
    ensures |Merged(jobs)| == |KeysUsed(jobs)|
  {
    MergedWhole(jobs);
    var s := Absorb(NOTHING, 0, jobs);
    OrderCount(s.order, s.best.Keys);
  }

  lemma {:induction false} MadeUpKeysCount(n: nat)
    ensures |MadeUpKeys(n)| == n
  {
    if n > 0 {
      MadeUpKeysCount(n - 1);
      var k := NoUrlKey(n - 1);
      MadeUpKeysAre(n - 1, k);
      if k in MadeUpKeys(n - 1) {
        var m: nat :| m < n - 1 && k == NoUrlKey(m);
        NoUrlKeyInjective(m, n - 1);
      }
    }
  }

  lemma ClashShared(jobs: seq<Job>)
    ensures NoClash(jobs) <==> UrlKeys(jobs) !! MadeUpKeys(|NoUrls(jobs)|)
  {
    forall k: string { MadeUpKeysAre(|NoUrls(jobs)|, k); }
    if !NoClash(jobs) {
      var j, n: nat :| j in jobs && n < |NoUrls(jobs)| && KeyOf(j) == ByUrl(NoUrlKey(n));
      assert NoUrlKey(n) in UrlKeys(jobs) && NoUrlKey(n) in MadeUpKeys(|NoUrls(jobs)|);
    }
  }

  lemma UnionCount(a: set<string>, b: set<string>)
    ensures |a + b| <= |a| + |b|
    ensures |a + b| == |a| + |b| <==> a !! b
  {
    assert |a + b| == |a| + |b| - |a * b|;
    if !(a !! b) {
      var k :| k in a && k in b;
      assert k in a * b;
    }
  }

  // One posting per URL key and one for each posting without a URL survive, if and only if no posting's
  // URL is a made-up key.
  lemma MergedCountIff(jobs: seq<Job>)
    ensures |Merged(jobs)| == |UrlKeys(jobs)| + |NoUrls(jobs)| <==> NoClash(jobs)
    ensures |Merged(jobs)| <= |UrlKeys(jobs)| + |NoUrls(jobs)|
  {
    MergedCount(jobs);
    ClashShared(jobs);
    MadeUpKeysCount(|NoUrls(jobs)|);
    UnionCount(UrlKeys(jobs), MadeUpKeys(|NoUrls(jobs)|));
  }

  // A posting whose URL is the made-up key swallows a posting without a URL.
  lemma ClashLosesPosting(title: string, source: string)
    ensures var clash := Job(Some(NoUrlKey(0)), None, title, source);
            var blank := Job(Some(""), None, title, source);
            KeyOf(clash).ByUrl? && KeyOf(blank).NoUrl? && |Merged([clash, blank])| < 2
  {
    var clash := Job(Some(NoUrlKey(0)), None, title, source);
    var blank := Job(Some(""), None, title, source);
    assert NoUrlKey(0)[0] == '\U{0000}';
    assert KeyOf(clash) == ByUrl(NoUrlKey(0));
    assert KeyOf(blank).NoUrl?;
    var both := [clash, blank];
    assert both == [clash] + [blank];
    NoUrlsAppend([], clash);
    NoUrlsAppend([clash], blank);
    UrlKeysAppend([], clash);
    UrlKeysAppend([clash], blank);
    assert [] + [clash] == [clash];
    assert UrlKeys([]) == {};
    assert clash in both;
    assert !NoClash(both);
    MergedCountIff(both);
  }

  // ---------------------------------------------------------------- lists without a clash

  lemma NoUrlsSurvive(jobs: seq<Job>)
    requires NoClash(jobs)
    ensures NoUrls(Merged(jobs)) == NoUrls(jobs)
  {
    MergedWhole(jobs);
  }

  lemma UrlSurvives(jobs: seq<Job>, key: string)
    requires NoClash(jobs) && key in UrlKeys(jobs)
    ensures key in UrlKeys(Merged(jobs))
  {
    var keys := MergeListsLongest(jobs);
    var j :| j in jobs && KeyOf(j).ByUrl? && KeyOf(j).text == key;
    var i :| 0 <= i < |jobs| && jobs[i] == j;
    assert TextAt(jobs, i) == Some(key);
    var n :| 0 <= n < |keys| && keys[n] == key;
    var k: nat :| FirstLongestAt(jobs, key, k) && jobs[k] == Merged(jobs)[n];
    OwnPlace(jobs, jobs, k, key);
    assert Merged(jobs)[n] in Merged(jobs);
  }

  // No two postings of the list share a URL key, and none is to be skipped.
  ghost predicate Distinct(r: seq<Job>) {
    && (forall i :: 0 <= i < |r| ==> !KeyOf(r[i]).Skipped?)
    && (forall i, k :: 0 <= i < k < |r| && KeyOf(r[i]).ByUrl? ==> KeyOf(r[i]) != KeyOf(r[k]))
  }

  lemma LastKeyIsNew(r: seq<Job>)
    requires Distinct(r) && r != [] && KeyOf(r[|r| - 1]).ByUrl?
    ensures forall j :: j in r[..|r| - 1] ==> KeyOf(j) != KeyOf(r[|r| - 1])
  {
    var n := |r| - 1;
    forall j | j in r[..n] ensures KeyOf(j) != KeyOf(r[n]) {
      var i :| 0 <= i < n && r[i] == j;
    }
  }

  // A posting with a URL occurs at most once in such a list.
  lemma {:induction false} OccursOnce(r: seq<Job>, j: Job)
    requires Distinct(r) && KeyOf(j).ByUrl?
    ensures multiset(r)[j] == if j in r then 1 else 0
  {
    if r != [] {
      var n := |r| - 1;
      OccursOnce(r[..n], j);
      assert r == r[..n] + [r[n]];
      assert j in r <==> j in r[..n] || j == r[n];
      if j == r[n] {
        LastKeyIsNew(r);
      }
    }
  }

  lemma MergedDistinct(jobs: seq<Job>)
    ensures Distinct(Merged(jobs))
  {
    var r := Merged(jobs);
    var keys := MergeListsLongest(jobs);
    forall i | 0 <= i < |r| ensures KeyOf(r[i]).ByUrl? ==> KeyOf(r[i]).text == keys[i] {
      assert FirstLongest(jobs, keys[i], r[i]);
    }
    forall i | 0 <= i < |r| ensures !KeyOf(r[i]).Skipped? {
      assert FirstLongest(jobs, keys[i], r[i]);
    }
  }

  // ---------------------------------------------------------------- completion order

  lemma {:induction false} NoUrlsMember(jobs: seq<Job>, j: Job)
    ensures multiset(NoUrls(jobs))[j] == if KeyOf(j).NoUrl? then multiset(jobs)[j] else 0
  {
    if jobs != [] {
      var n := |jobs| - 1;
      NoUrlsMember(jobs[..n], j);
      assert jobs == jobs[..n] + [jobs[n]];
    }
  }

  lemma NoUrlsPermute(p: seq<Job>, q: seq<Job>)
    requires multiset(p) == multiset(q)
    ensures multiset(NoUrls(p)) == multiset(NoUrls(q))
  {
    forall j: Job ensures multiset(NoUrls(p))[j] == multiset(NoUrls(q))[j] {
      NoUrlsMember(p, j);
      NoUrlsMember(q, j);
    }
  }

  lemma SameMembers(p: seq<Job>, q: seq<Job>)
    requires multiset(p) == multiset(q)
    ensures forall j :: j in p <==> j in q
  {
    forall j ensures j in p <==> j in q {
      assert j in p <==> j in multiset(p);
      assert j in q <==> j in multiset(q);
    }
  }

  lemma Permuted(p: seq<Job>, q: seq<Job>)
    requires multiset(p) == multiset(q)
    ensures UrlKeys(p) == UrlKeys(q) && |NoUrls(p)| == |NoUrls(q)| && (NoClash(p) ==> NoClash(q))
  {
    SameMembers(p, q);
    NoUrlsPermute(p, q);
    assert |NoUrls(p)| == |multiset(NoUrls(p))|;
    assert |NoUrls(q)| == |multiset(NoUrls(q))|;
  }

  lemma SameLength(p: seq<Job>, q: seq<Job>, a: Job, b: Job)
    requires multiset(p) == multiset(q) && KeyOf(a) == KeyOf(b) && KeyOf(a).ByUrl?
    requires LongestFor(p, KeyOf(a).text, a) && LongestFor(q, KeyOf(a).text, b)
    ensures Len(a) == Len(b)
  {
    SameMembers(p, q);
  }

  lemma KeysUsedPermute(p: seq<Job>, q: seq<Job>)
    requires multiset(p) == multiset(q)
    ensures KeysUsed(p) == KeysUsed(q)
  {
    Permuted(p, q);
  }

  // Whatever order the providers complete in, the merge lists equally many postings, and survivors
  // with the same URL are equally long: the longest there are.
  lemma MergeConfluent(p: seq<Job>, q: seq<Job>)
    requires multiset(p) == multiset(q)
    ensures |Merged(p)| == |Merged(q)| == |KeysUsed(p)|
    ensures forall a :: a in Merged(p) && KeyOf(a).ByUrl? ==> LongestFor(p, KeyOf(a).text, a)
    ensures forall a, b :: a in Merged(p) && b in Merged(q) && KeyOf(a).ByUrl? && KeyOf(a) == KeyOf(b) ==>
        Len(a) == Len(b)
  {
    KeysUsedPermute(p, q);
    MergedCount(p);
    MergedCount(q);
    forall a | a in Merged(p) && KeyOf(a).ByUrl?
      ensures LongestFor(p, KeyOf(a).text, a)
    {
      UrlSurvivorIsLongest(p, a);
    }
    forall a, b | a in Merged(p) && b in Merged(q) && KeyOf(a).ByUrl? && KeyOf(a) == KeyOf(b)
      ensures Len(a) == Len(b)
    {
      UrlSurvivorIsLongest(q, b);
      SameLength(p, q, a, b);
    }
  }

  // Without a clash every URL and every posting without one survives.
  lemma MergedShape(p: seq<Job>)
    requires NoClash(p)
    ensures NoUrls(Merged(p)) == NoUrls(p) && UrlKeys(Merged(p)) == UrlKeys(p)
    ensures forall a :: a in Merged(p) && KeyOf(a).ByUrl? ==> LongestFor(p, KeyOf(a).text, a)
  {
    NoUrlsSurvive(p);
    forall a | a in Merged(p) && KeyOf(a).ByUrl? ensures LongestFor(p, KeyOf(a).text, a) {
      UrlSurvivorIsLongest(p, a);
    }
    forall key | key in UrlKeys(p) ensures key in UrlKeys(Merged(p)) {
      UrlSurvives(p, key);
    }
  }

  // Under every URL key the longest description belongs to one posting only.
  ghost predicate UniqueLongest(jobs: seq<Job>) {
    forall key, a, b :: LongestFor(jobs, key, a) && LongestFor(jobs, key, b) ==> a == b
  }

  lemma UniqueMembers(p: seq<Job>, r: seq<Job>, t: seq<Job>, j: Job)
    requires UniqueLongest(p) && UrlKeys(r) == UrlKeys(p) == UrlKeys(t)
    requires forall k :: k in r && KeyOf(k).ByUrl? ==> LongestFor(p, KeyOf(k).text, k)
    requires forall k :: k in t && KeyOf(k).ByUrl? ==> LongestFor(p, KeyOf(k).text, k)
    requires j in r && KeyOf(j).ByUrl?
    ensures j in t
  {
    assert KeyOf(j).text in UrlKeys(t);
    var k :| k in t && KeyOf(k).ByUrl? && KeyOf(k).text == KeyOf(j).text;
    assert LongestFor(p, KeyOf(j).text, k) && LongestFor(p, KeyOf(j).text, j);
  }

  lemma LongestForPermuted(p: seq<Job>, q: seq<Job>, key: string, j: Job)
    requires multiset(p) == multiset(q) && LongestFor(q, key, j)
    ensures LongestFor(p, key, j)
  {
    SameMembers(p, q);
  }

  lemma UniqueOccurrences(p: seq<Job>, q: seq<Job>, j: Job)
    requires multiset(p) == multiset(q) && NoClash(p) && UniqueLongest(p)
    ensures multiset(Merged(p))[j] == multiset(Merged(q))[j]
  {
    var r, t := Merged(p), Merged(q);
    Permuted(p, q);
    MergedDistinct(p);
    MergedDistinct(q);
    MergedShape(p);
    MergedShape(q);
    match KeyOf(j)
    case Skipped =>
    case NoUrl =>
      NoUrlsPermute(p, q);
      NoUrlsMember(r, j);
      NoUrlsMember(t, j);
    case ByUrl(_) =>
      OccursOnce(r, j);
      OccursOnce(t, j);
      forall k | k in t && KeyOf(k).ByUrl? ensures LongestFor(p, KeyOf(k).text, k) {
        LongestForPermuted(p, q, KeyOf(k).text, k);
      }
      if j in r { UniqueMembers(p, r, t, j); }
      if j in t { UniqueMembers(p, t, r, j); }
  }

  lemma UniqueMeansSame(p: seq<Job>, q: seq<Job>)
    requires multiset(p) == multiset(q) && NoClash(p) && UniqueLongest(p)
    ensures multiset(Merged(p)) == multiset(Merged(q))
  {
    forall j: Job ensures multiset(Merged(p))[j] == multiset(Merged(q))[j] {
      UniqueOccurrences(p, q, j);
    }
  }

  // The postings with number i arriving first.
  function ToFront(jobs: seq<Job>, i: nat): (r: seq<Job>)
    requires i < |jobs|
    ensures multiset(r) == multiset(jobs) && r != [] && r[0] == jobs[i]
  {
    assert jobs == jobs[..i] + ([jobs[i]] + jobs[i + 1..]);
    [jobs[i]] + (jobs[..i] + jobs[i + 1..])
  }

  // The longest posting to arrive first is the one that is kept.
  lemma FirstArrivalWins(front: seq<Job>, key: string)
    requires front != [] && LongestFor(front, key, front[0]) && NoClash(front)
    ensures front[0] in Merged(front)
    ensures forall b :: b in Merged(front) && Has(b, key) ==> b == front[0]
  {
    var r := Merged(front);
    var keys := MergeListsLongest(front);
    forall b | b in r && Has(b, key) ensures b == front[0] {
      var n :| 0 <= n < |r| && r[n] == b;
      var i: nat :| FirstLongestAt(front, keys[n], i) && front[i] == b;
      assert TextAt(front, 0) == Some(key) == TextAt(front, i);
    }
    assert key in UrlKeys(front);
    UrlSurvives(front, key);
    var b :| b in r && KeyOf(b).ByUrl? && KeyOf(b).text == key;
  }

  // Two tied postings: the order in which they arrive shows.
  lemma TieShows(jobs: seq<Job>, key: string, i: nat, k: nat)
    requires NoClash(jobs) && i < |jobs| && k < |jobs| && jobs[i] != jobs[k]
    requires LongestFor(jobs, key, jobs[i]) && LongestFor(jobs, key, jobs[k])
    ensures multiset(Merged(ToFront(jobs, i))) != multiset(Merged(ToFront(jobs, k)))
  {
    var p, q := ToFront(jobs, i), ToFront(jobs, k);
    Permuted(jobs, p);
    Permuted(jobs, q);
    LongestForPermuted(p, jobs, key, jobs[i]);
    LongestForPermuted(q, jobs, key, jobs[k]);
    FirstArrivalWins(p, key);
    FirstArrivalWins(q, key);
    assert jobs[i] in multiset(Merged(p)) && jobs[i] !in multiset(Merged(q));
  }

  // The merged list is the same for every completion order if and only if no URL key has two different
  // postings tied for the longest description.
  lemma MergeDeterministicIff(jobs: seq<Job>)
    requires NoClash(jobs)
    ensures UniqueLongest(jobs) <==>
              forall q :: multiset(q) == multiset(jobs) ==> multiset(Merged(q)) == multiset(Merged(jobs))
  {
    if UniqueLongest(jobs) {
      forall q | multiset(q) == multiset(jobs) ensures multiset(Merged(q)) == multiset(Merged(jobs)) {
        UniqueMeansSame(jobs, q);
      }
    } else {
      var key, a, b :| LongestFor(jobs, key, a) && LongestFor(jobs, key, b) && a != b;
      var i: nat :| i < |jobs| && jobs[i] == a;
      var k: nat :| k < |jobs| && jobs[k] == b;
      TieShows(jobs, key, i, k);
      assert multiset(ToFront(jobs, i)) == multiset(ToFront(jobs, k)) == multiset(jobs);
    }
  }

  lemma ThreeMerged(a: Job, b: Job, c: Job)
    requires KeyOf(a).NoUrl? && KeyOf(b).NoUrl? && Has(c, NoUrlKey(0)) && Len(a) < Len(c)
    ensures Merged([a, b, c]) == [c, b]
  {
    NoUrlKeyInjective(0, 1);
    var s1 := Put(NOTHING, NoUrlKey(0), a);
    var s2 := Put(s1, NoUrlKey(1), b);
    var s3 := Put(s2, NoUrlKey(0), c);
    assert [a, b, c][1..] == [b, c] && [b, c][1..] == [c] && [c][1..] == [];
    assert Absorb(s2, 2, [c]) == s3;
    assert Absorb(s1, 1, [b, c]) == Absorb(s2, 2, [c]);
    assert Absorb(NOTHING, 0, [a, b, c]) == Absorb(s1, 1, [b, c]);
    assert s3.order == [NoUrlKey(0), NoUrlKey(1)];
  }

  // With a clash the order of arrival shows although no URL has two different longest postings: the first
  // posting without a URL is lost, whichever it is.
  lemma ClashOrderShows(x: Job, y: Job, c: Job)
    requires KeyOf(x).NoUrl? && KeyOf(y).NoUrl? && x != y && Has(c, NoUrlKey(0)) && Len(x) < Len(c) && Len(y) < Len(c)
    ensures multiset([x, y, c]) == multiset([y, x, c]) && UniqueLongest([x, y, c])
    ensures multiset(Merged([x, y, c])) != multiset(Merged([y, x, c]))
  {
    ThreeMerged(x, y, c);
    ThreeMerged(y, x, c);
    assert x in multiset([c, x]) && x !in multiset([c, y]);
  }

  // ---------------------------------------------------------------- outcomes

  ghost predicate DistinctProviders(arrivals: seq<Arrival>) {
    forall i, k :: 0 <= i < k < |arrivals| ==> arrivals[i].provider != arrivals[k].provider
  }

  lemma {:induction false} OutcomeMapIs(arrivals: seq<Arrival>)
    requires DistinctProviders(arrivals)
    ensures forall name :: name in OutcomeMap(arrivals) <==> exists a :: a in arrivals && a.provider == name
    ensures forall a :: a in arrivals ==>
        a.provider in OutcomeMap(arrivals) && OutcomeMap(arrivals)[a.provider] == a.outcome
  {
    if arrivals != [] {
      var n := |arrivals| - 1;
      OutcomeMapIs(arrivals[..n]);
      assert forall a :: a in arrivals <==> a in arrivals[..n] || a == arrivals[n];
      forall a | a in arrivals[..n] ensures a.provider != arrivals[n].provider {
        var i :| 0 <= i < n && arrivals[i] == a;
      }
    }
  }

  lemma {:induction false} AllJobsConcat(a: seq<Arrival>, b: seq<Arrival>)
    ensures AllJobs(a + b) == AllJobs(a) + AllJobs(b)
  {
    if a == [] {
      assert a + b == b;
    } else {
      assert (a + b)[1..] == a[1..] + b;
      AllJobsConcat(a[1..], b);
    }
  }

  lemma MoveJobs(a: seq<Job>, x: seq<Job>, b: seq<Job>)
    ensures multiset(a + (x + b)) == multiset(x) + multiset(a + b)
  {
  }

  lemma MoveFront(q: seq<Arrival>, j: nat)
    requires j < |q|
    ensures multiset(AllJobs(q)) == multiset(q[j].jobs) + multiset(AllJobs(q[..j] + q[j + 1..]))
  {
    var a, b := q[..j], q[j + 1..];
    var rest := q[j..];
    assert q == a + rest;
    assert rest[1..] == b;
    assert AllJobs(rest) == q[j].jobs + AllJobs(b);
    AllJobsConcat(a, rest);
    AllJobsConcat(a, b);
    MoveJobs(AllJobs(a), q[j].jobs, AllJobs(b));
  }

  lemma SameFirst(p: seq<Arrival>, q: seq<Arrival>) returns (j: nat)
    requires multiset(p) == multiset(q) && p != []
    ensures j < |q| && q[j] == p[0] && multiset(p[1..]) == multiset(q[..j] + q[j + 1..])
  {
    assert p[0] in multiset(q);
    j :| 0 <= j < |q| && q[j] == p[0];
    TakeOut(q, j);
    assert p == [p[0]] + p[1..];
  }

  lemma {:induction false} AllJobsPermute(p: seq<Arrival>, q: seq<Arrival>)
    requires multiset(p) == multiset(q)
    ensures multiset(AllJobs(p)) == multiset(AllJobs(q))
    decreases |p|
  {
    if p == [] {
      assert |q| == |multiset(q)|;
    } else {
      var j := SameFirst(p, q);
      MoveFront(q, j);
      AllJobsPermute(p[1..], q[..j] + q[j + 1..]);
    }
  }

  lemma OutcomeMapsAgree(p: seq<Arrival>, q: seq<Arrival>, name: string)
    requires DistinctProviders(p) && DistinctProviders(q) && forall a :: a in p ==> a in q
    requires name in OutcomeMap(p)
    ensures name in OutcomeMap(q) && OutcomeMap(q)[name] == OutcomeMap(p)[name]
  {
    OutcomeMapIs(p);
    OutcomeMapIs(q);
    var a :| a in p && a.provider == name;
  }

  lemma {:induction false} OccursTwice(p: seq<Arrival>, a: Arrival) returns (i: nat, k: nat)
    requires multiset(p)[a] >= 2
    ensures i < k < |p| && p[i] == a && p[k] == a
  {
    var n := |p| - 1;
    assert p == p[..n] + [p[n]];
    if p[n] == a {
      assert a in multiset(p[..n]);
      i :| 0 <= i < n && p[i] == a;
      k := n;
    } else {
      i, k := OccursTwice(p[..n], a);
    }
  }

  lemma {:induction false} TwoOccur(q: seq<Arrival>, i: nat, k: nat)
    requires i < k < |q| && q[i] == q[k]
    ensures multiset(q)[q[i]] >= 2
  {
    assert q == (q[..k] + [q[k]]) + q[k + 1..];
    assert q[i] in q[..k];
    assert multiset(q[..k])[q[i]] >= 1;
  }

  lemma DistinctPermuted(p: seq<Arrival>, q: seq<Arrival>)
    requires multiset(p) == multiset(q) && DistinctProviders(p)
    ensures DistinctProviders(q)
  {
    forall i, k | 0 <= i < k < |q| ensures q[i].provider != q[k].provider {
      if q[i] == q[k] {
        TwoOccur(q, i, k);
        var m, n := OccursTwice(p, q[i]);
      } else {
        assert q[i] in multiset(p) && q[k] in multiset(p);
        var m :| 0 <= m < |p| && p[m] == q[i];
        var n :| 0 <= n < |p| && p[n] == q[k];
        assert m != n;
      }
    }
  }

  lemma ReportsTakeOut(q: seq<Arrival>, j: nat)
    requires j < |q|
    ensures multiset(Reports(q)) == multiset(Reports(q[..j] + q[j + 1..])) + multiset{ReportOf(q[j])}
  {
    var all := Reports(q);
    TakeOut(all, j);
    assert all[..j] + all[j + 1..] == Reports(q[..j] + q[j + 1..]);
    assert all[j] == ReportOf(q[j]) && all[j] in multiset(all);
  }

  lemma ReportsFirst(p: seq<Arrival>)
    requires p != []
    ensures multiset(Reports(p)) == multiset(Reports(p[1..])) + multiset{ReportOf(p[0])}
  {
    assert Reports(p) == [ReportOf(p[0])] + Reports(p[1..]);
  }

  lemma {:induction false} ReportsPermute(p: seq<Arrival>, q: seq<Arrival>)
    requires multiset(p) == multiset(q)
    ensures multiset(Reports(p)) == multiset(Reports(q))
    decreases |p|
  {
    if p == [] {
      assert |q| == |multiset(q)|;
    } else {
      var j := SameFirst(p, q);
      ReportsPermute(p[1..], q[..j] + q[j + 1..]);
      ReportsFirst(p);
      ReportsTakeOut(q, j);
    }
  }

  // With uniquely named providers the outcome list does not depend on who completes first, and the jobs
  // merged are the same collection.
  lemma OutcomesConfluent(toQuery: seq<string>, p: seq<Arrival>, q: seq<Arrival>)
    requires multiset(p) == multiset(q) && DistinctProviders(p)
    ensures Ordered(toQuery, OutcomeMap(p)) == Ordered(toQuery, OutcomeMap(q))
    ensures multiset(AllJobs(p)) == multiset(AllJobs(q))
  {
    DistinctPermuted(p, q);
    AllJobsPermute(p, q);
    forall a ensures a in p <==> a in q {
      assert a in p <==> a in multiset(p);
      assert a in q <==> a in multiset(q);
    }
    var m, n := OutcomeMap(p), OutcomeMap(q);
    forall name | name in m ensures name in n && n[name] == m[name] {
      OutcomeMapsAgree(p, q, name);
    }
    forall name | name in n ensures name in m {
      OutcomeMapsAgree(q, p, name);
    }
    assert m == n;
  }

  // The whole fan-out under every order of completion: the same outcome list, the same reports, equally many
  // postings, the longest under every URL; and, without a clash, the very same postings if no URL has two
  // different longest ones.
  lemma FanOutConfluent(toQuery: seq<string>, p: seq<Arrival>, q: seq<Arrival>)
    requires multiset(p) == multiset(q) && DistinctProviders(p)
    ensures Ordered(toQuery, OutcomeMap(p)) == Ordered(toQuery, OutcomeMap(q))
    ensures multiset(Reports(p)) == multiset(Reports(q))
    ensures |Merged(AllJobs(p))| == |Merged(AllJobs(q))|
    ensures var r, t := Merged(AllJobs(p)), Merged(AllJobs(q));
            forall a, b :: a in r && b in t && KeyOf(a).ByUrl? && KeyOf(a) == KeyOf(b) ==>
              Len(a) == Len(b) && LongestFor(AllJobs(p), KeyOf(a).text, a)
    ensures NoClash(AllJobs(p)) && UniqueLongest(AllJobs(p)) ==>
        multiset(Merged(AllJobs(p))) == multiset(Merged(AllJobs(q)))
  {
    OutcomesConfluent(toQuery, p, q);
    ReportsPermute(p, q);
    MergeConfluent(AllJobs(p), AllJobs(q));
    if NoClash(AllJobs(p)) && UniqueLongest(AllJobs(p)) {
      UniqueMeansSame(AllJobs(p), AllJobs(q));
    }
  }
}
