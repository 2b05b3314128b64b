// The facet index: upserts that keep earlier facet values, expiry, and counts over a city and its
// neighbours.
module JobIndex {
  import opened Wrappers
  import opened Sequences
  import opened CityAdjacency

  // A posting; `content` stands for the columns that are always overwritten.
  datatype Posting = Posting(sourceUrl: string, title: string, description: string, location: string,
                             postedAt: Option<int>, content: string)

  // An empty facet is the empty string.
  datatype Row = Row(content: string, location: string, role: string, seniority: string, language: string,
                     postedAt: Option<int>, ttlAt: int)

  type Table = map<string, Row>

  // The title and language heuristics and the normaliser of locations.
  datatype Rules = Rules(seniorityOf: string -> string, languageOf: string -> string, atlas: Atlas)

  // What a caller passes with a batch; `None` leaves a facet to the heuristic.
  datatype Batch = Batch(jobs: seq<Posting>, role: Option<string>, seniority: Option<string>, language: Option<string>)

  function RowFor(r: Rules, b: Batch, j: Posting, now: int, ttl: int): Row {
    Row(j.content, Key(r.atlas, j.location), OrEmpty(b.role),
        match b.seniority case Some(s) => s case None => r.seniorityOf(j.title),
        match b.language case Some(s) => s case None => r.languageOf(j.description),
        j.postedAt, now + ttl)
  }

  function NonEmpty(new': string, old': string): string { if new' == "" then old' else new' }

  // ON CONFLICT: facets and the posting date survive an empty successor, everything else is replaced.
  function MergeRow(old': Row, new': Row): Row {
    new'.(role := NonEmpty(new'.role, old'.role), seniority := NonEmpty(new'.seniority, old'.seniority),
          language := NonEmpty(new'.language, old'.language),
          postedAt := if new'.postedAt.None? then old'.postedAt else new'.postedAt)
  }

  function Put(t: Table, url: string, row: Row): Table {
    t[url := if url in t then MergeRow(t[url], row) else row]
  }

  function PutAll(t: Table, rows: seq<(string, Row)>): Table
    decreases |rows|
  {
    if rows == [] then t else PutAll(Put(t, rows[0].0, rows[0].1), rows[1..])
  }

  // The rows of a batch; postings without a URL are skipped.
  function RowsOf(r: Rules, b: Batch, jobs: seq<Posting>, now: int, ttl: int): seq<(string, Row)> {
    if jobs == [] then []
    else
      var j := jobs[|jobs| - 1];
      RowsOf(r, b, jobs[..|jobs| - 1], now, ttl)
      + if j.sourceUrl == "" then [] else [(j.sourceUrl, RowFor(r, b, j, now, ttl))]
  }

  function Upserted(r: Rules, t: Table, b: Batch, now: int, ttl: int): Table {
    PutAll(t, RowsOf(r, b, b.jobs, now, ttl))
  }

  function Purged(t: Table, now: int): Table { map url | url in t && t[url].ttlAt >= now :: t[url] }

  // Empty means no restriction.
  datatype Facets = Facets(role: string, seniority: string, language: string)

  predicate Live(row: Row, f: Facets, now: int) {
    && row.ttlAt > now
    && (f.role == "" || row.role == f.role)
    && (f.seniority == "" || row.seniority == f.seniority)
    && (f.language == "" || row.language == f.language)
  }

  function Matching(r: Rules, t: Table, f: Facets, location: string, now: int): set<string> {
    set url | url in t && Live(t[url], f, now) && (location == "" || t[url].location == Key(r.atlas, location))
  }

  // The rows a count is about: not expired, with the facets asked for, in the place asked for.
  ghost predicate AreAskedFor(r: Rules, t: Table, f: Facets, location: string, now: int, urls: set<string>) {
    forall url :: url in urls <==>
      && url in t && t[url].ttlAt > now
      && (f.role == "" || t[url].role == f.role)
      && (f.seniority == "" || t[url].seniority == f.seniority)
      && (f.language == "" || t[url].language == f.language)
      && (location == "" || t[url].location == Key(r.atlas, location))
  }

  lemma MatchingAreAskedFor(r: Rules, t: Table, f: Facets, location: string, now: int)
    ensures forall urls :: AreAskedFor(r, t, f, location, now, urls) <==> urls == Matching(r, t, f, location, now)
  {
    forall urls ensures AreAskedFor(r, t, f, location, now, urls) <==> urls == Matching(r, t, f, location, now) {
      if AreAskedFor(r, t, f, location, now, urls) {
        assert forall url :: url in urls <==> url in Matching(r, t, f, location, now);
      }
    }
  }

  datatype Adjacent = Adjacent(city: string, count: nat, minutes: Option<int>, mode: Option<string>)

  datatype Breakdown = Breakdown(city: string, cityCount: nat, adjacent: seq<Adjacent>, total: nat)

  // A neighbour's count, with the edge that leads there if there is one.
  function AdjacentOf(city: string, count: nat, edge: Option<Edge>): Adjacent {
    match edge
    case None => Adjacent(city, count, None, None)
    case Some(e) => Adjacent(city, count, Some(e.minutes), Some(e.mode))
  }

  function CountEach(r: Rules, t: Table, f: Facets, keys: seq<string>, edgeTo: string -> Option<Edge>,
      now: int): (c: seq<Adjacent>)
    ensures |c| == |keys|
  {
    seq(|keys|, i requires 0 <= i < |keys| => AdjacentOf(keys[i], |Matching(r, t, f, keys[i], now)|, edgeTo(keys[i])))
  }

  // The edges out of a city within the time.
  function EdgesFrom(r: Rules, location: string, maxMinutes: Option<int>): string -> Option<Edge> {
    k => EdgeTo(AdjacentCities(r.atlas, location, maxMinutes), Key(r.atlas, location), k)
  }

  function Sum(counts: seq<Adjacent>): nat {
    if counts == [] then 0 else Sum(counts[..|counts| - 1]) + counts[|counts| - 1].count
  }

  // A neighbour with the number of rows there, and the minutes and mode of an edge that joins it to the city in time.
  ghost predicate AdjacentTells(r: Rules, t: Table, f: Facets, location: string, maxMinutes: Option<int>, now: int,
      a: Adjacent)
  {
    && a.count == |Matching(r, t, f, a.city, now)|
    && exists e :: e in r.atlas.edges && Joins(e, Key(r.atlas, location), a.city) && CityAdjacency.Within(e, maxMinutes)
                   && a.minutes == Some(e.minutes) && a.mode == Some(e.mode)
  }

  // Told of every neighbour that is counted.
  lemma AdjacentAreTold(r: Rules, t: Table, f: Facets, location: string, maxMinutes: Option<int>, now: int)
    requires Curated(r.atlas)
    ensures var keys := NeighbourKeys(r.atlas, location, maxMinutes);
            var c := CountEach(r, t, f, keys, EdgesFrom(r, location, maxMinutes), now);
            forall i :: 0 <= i < |c| ==>
              c[i].city == keys[i] && AdjacentTells(r, t, f, location, maxMinutes, now, c[i])
  {
    var keys := NeighbourKeys(r.atlas, location, maxMinutes);
    forall i | 0 <= i < |keys|
      ensures AdjacentTells(r, t, f, location, maxMinutes, now,
                            AdjacentOf(keys[i], |Matching(r, t, f, keys[i], now)|,
                                       EdgeTo(AdjacentCities(r.atlas, location, maxMinutes), Key(r.atlas, location),
                                              keys[i])))
    {
      assert keys[i] in keys;
      NeighbourHasEdge(r.atlas, location, maxMinutes, keys[i]);
    }
  }

  // The postings that have a URL, in order.
  function WithUrl(jobs: seq<Posting>): seq<Posting> {
    if jobs == [] then []
    else WithUrl(jobs[..|jobs| - 1]) + if jobs[|jobs| - 1].sourceUrl == "" then [] else [jobs[|jobs| - 1]]
  }

  // The row a posting is written as: the caller's facets, or what the heuristics find in title and description.
  predicate RowIs(r: Rules, b: Batch, j: Posting, now: int, ttl: int, row: Row) {
    && row.content == j.content && row.postedAt == j.postedAt && row.ttlAt == now + ttl
    && row.location == (if j.location == "" then "" else r.atlas.norm(j.location))
    && row.role == (if b.role.Some? then b.role.value else "")
    && row.seniority == (if b.seniority.Some? then b.seniority.value else r.seniorityOf(j.title))
    && row.language == (if b.language.Some? then b.language.value else r.languageOf(j.description))
  }

  // One row for every posting with a URL, in order.
  lemma {:induction false} RowsAre(r: Rules, b: Batch, jobs: seq<Posting>, now: int, ttl: int)
    ensures var rows, js := RowsOf(r, b, jobs, now, ttl), WithUrl(jobs);
            && |rows| == |js|
            && forall i :: 0 <= i < |js| ==> rows[i].0 == js[i].sourceUrl && RowIs(r, b, js[i], now, ttl, rows[i].1)
  {
    if jobs != [] { RowsAre(r, b, jobs[..|jobs| - 1], now, ttl); }
  }

  class Index {
    const rules: Rules
    const ttlSeconds: int
    var table: Table

    constructor (rules: Rules, ttlSeconds: int)
      ensures this.rules == rules && this.ttlSeconds == ttlSeconds && table == map[]
    {
      this.rules, this.ttlSeconds, table := rules, ttlSeconds, map[];
    }

    method GatherRows(b: Batch, now: int) returns (rows: seq<(string, Row)>)
      ensures rows == RowsOf(rules, b, b.jobs, now, ttlSeconds)
    {
      rows := [];
      var i := 0;
      while i < |b.jobs|
        invariant 0 <= i <= |b.jobs| && rows == RowsOf(rules, b, b.jobs[..i], now, ttlSeconds)
      {
        var job := b.jobs[i];
        assert b.jobs[..i + 1][..i] == b.jobs[..i];
        if job.sourceUrl != "" {
          rows := rows + [(job.sourceUrl, RowFor(rules, b, job, now, ttlSeconds))];
        }
        i := i + 1;
      }
      assert b.jobs[..i] == b.jobs;
    }

    method UpsertJobs(b: Batch, now: int) returns (written: nat)
      modifies this
      ensures table == Upserted(rules, old(table), b, now, ttlSeconds)
      ensures written == |RowsOf(rules, b, b.jobs, now, ttlSeconds)|
      ensures written == |WithUrl(b.jobs)|
    {
      RowsAre(rules, b, b.jobs, now, ttlSeconds);
      var rows := GatherRows(b, now);
      written := |rows|;
      var n := 0;
      while n < |rows|
        invariant 0 <= n <= |rows|
        invariant PutAll(old(table), rows) == PutAll(table, rows[n..])
      {
        assert rows[n..][1..] == rows[n + 1..];
        table := Put(table, rows[n].0, rows[n].1);
        n := n + 1;
      }
    }

    method CountByFacets(f: Facets, location: string, now: int) returns (count: nat)
      ensures count == |Matching(rules, table, f, location, now)|
      ensures forall urls :: AreAskedFor(rules, table, f, location, now, urls) ==> count == |urls|
    {
      MatchingAreAskedFor(rules, table, f, location, now);
      var left := table.Keys;
      count := 0;
      ghost var all := Matching(rules, table, f, location, now);
      assert all * left == all;
      while left != {}
        invariant left <= table.Keys
        invariant count + |all * left| == |all|
        decreases left
      {
        var url :| url in left;
        var row := table[url];
        var hit := Live(row, f, now) && (location == "" || row.location == Key(rules.atlas, location));
        assert hit <==> url in all;
        CountOne(all, left, url);
        if hit { count := count + 1; }
        left := left - {url};
      }
      assert all * left == {};
    }

    method CountWithAdjacentCities(f: Facets, location: string, maxMinutes: Option<int>, now: int)
        returns (b: Breakdown)
      ensures b.city == Key(rules.atlas, location)
      ensures b.cityCount == |Matching(rules, table, f, location, now)|
      ensures b.adjacent ==
              CountEach(rules, table, f, NeighbourKeys(rules.atlas, location, maxMinutes),
                  EdgesFrom(rules, location, maxMinutes), now)
      ensures b.total == b.cityCount + Sum(b.adjacent)
    {
      var same := CountByFacets(f, location, now);
      var neighbours := FindNeighbourKeys(rules.atlas, location, maxMinutes);
      var byNeighbour := EdgeByNeighbour(AdjacentCities(rules.atlas, location, maxMinutes), Key(rules.atlas, location));
      ghost var edgeTo := EdgesFrom(rules, location, maxMinutes);
      var adjacent: seq<Adjacent> := [];
      var total := same;
      var i := 0;
      while i < |neighbours|
        invariant 0 <= i <= |neighbours|
        invariant adjacent == CountEach(rules, table, f, neighbours, edgeTo, now)[..i]
        invariant total == same + Sum(adjacent)
      {
        var n := CountByFacets(f, neighbours[i], now);
        var next := AdjacentOf(neighbours[i], n, Found(byNeighbour, neighbours[i]));
        assert (adjacent + [next])[..|adjacent|] == adjacent;
        adjacent := adjacent + [next];
        total := total + n;
        i := i + 1;
      }
      b := Breakdown(Key(rules.atlas, location), same, adjacent, total);
    }

    method PurgeExpired(now: int) returns (purged: nat)
      modifies this
      ensures table == Purged(old(table), now)
      ensures purged == |set url | url in old(table) && old(table)[url].ttlAt < now|
    {
      var before := table;
      table := map url | url in before && before[url].ttlAt >= now :: before[url];
      ghost var gone := set url | url in before && before[url].ttlAt < now;
      assert before.Keys == table.Keys + gone;
      purged := |before.Keys| - |table.Keys|;
    }
  }

  lemma CountOne(all: set<string>, left: set<string>, url: string)
    requires url in left
    ensures |all * left| == |all * (left - {url})| + if url in all then 1 else 0
  {
    if url in all {
      assert all * left == all * (left - {url}) + {url};
    } else {
      assert all * left == all * (left - {url});
    }
  }

  // ---------------------------------------------------------------- counting a city and its neighbours

  // The live matching rows in any of the places.
  function Around(t: Table, f: Facets, places: set<string>, now: int): set<string> {
    set url | url in t && Live(t[url], f, now) && t[url].location in places
  }

  function Places(keys: seq<string>): set<string> { set k | k in keys }

  lemma {:induction false} SumCountsPlaces(r: Rules, t: Table, f: Facets, keys: seq<string>,
      edgeTo: string -> Option<Edge>, now: int)
    requires forall i, k :: 0 <= i < k < |keys| ==> keys[i] != keys[k]
    requires forall i :: 0 <= i < |keys| ==> keys[i] != "" && Key(r.atlas, keys[i]) == keys[i]
    ensures Sum(CountEach(r, t, f, keys, edgeTo, now)) == |Around(t, f, Places(keys), now)|
  {
    if keys == [] {
      assert Around(t, f, Places(keys), now) == {};
    } else {
      var n := |keys| - 1;
      SumCountsPlaces(r, t, f, keys[..n], edgeTo, now);
      assert CountEach(r, t, f, keys, edgeTo, now)[..n] == CountEach(r, t, f, keys[..n], edgeTo, now);
      OneMorePlace(r, t, f, keys[..n], keys[n], now);
      assert keys == keys[..n] + [keys[n]];
    }
  }

  lemma OneMorePlace(r: Rules, t: Table, f: Facets, keys: seq<string>, key: string, now: int)
    requires key !in keys && key != "" && Key(r.atlas, key) == key
    ensures |Around(t, f, Places(keys + [key]), now)| == |Around(t, f, Places(keys), now)|
        + |Matching(r, t, f, key, now)|
  {
    var before, more := Around(t, f, Places(keys), now), Matching(r, t, f, key, now);
    assert Around(t, f, Places(keys + [key]), now) == before + more;
    assert before !! more;
  }

  // With a location given, the total counts every live matching row of the city or of one of its
  // neighbours exactly once.
  lemma TotalCountsOnce(r: Rules, t: Table, f: Facets, location: string, maxMinutes: Option<int>,
                        edgeTo: string -> Option<Edge>, now: int)
    requires Curated(r.atlas) && location != ""
    ensures var keys := NeighbourKeys(r.atlas, location, maxMinutes);
            |Matching(r, t, f, location, now)| + Sum(CountEach(r, t, f, keys, edgeTo, now)) ==
            |Around(t, f, {Key(r.atlas, location)} + Places(keys), now)|
  {
    var key := Key(r.atlas, location);
    var keys := NeighbourKeys(r.atlas, location, maxMinutes);
    EndsDistinct(AdjacentCities(r.atlas, location, maxMinutes), key);
    forall i | 0 <= i < |keys| ensures keys[i] != "" && keys[i] != key && Key(r.atlas, keys[i]) == keys[i] {
      assert keys[i] in keys;
      NeighboursSymmetric(r.atlas, location, keys[i], maxMinutes);
    }
    SumCountsPlaces(r, t, f, keys, edgeTo, now);
    var here, there := Matching(r, t, f, location, now), Around(t, f, Places(keys), now);
    assert here !! there;
    assert Around(t, f, {key} + Places(keys), now) == here + there;
  }

  // ---------------------------------------------------------------- what a row remembers

  datatype Operation = Upsert(batch: Batch, now: int) | Purge(now: int)

  function Apply(r: Rules, t: Table, op: Operation, ttl: int): Table {
    match op
    case Upsert(b, now) => Upserted(r, t, b, now, ttl)
    case Purge(now) => Purged(t, now)
  }

  // The latest operation last.
  function After(r: Rules, ops: seq<Operation>, ttl: int): Table {
    if ops == [] then map[] else Apply(r, After(r, ops[..|ops| - 1], ttl), ops[|ops| - 1], ttl)
  }

  function OfUrl(rows: seq<(string, Row)>, url: string): seq<Row> {
    if rows == [] then [] else (if rows[0].0 == url then [rows[0].1] else []) + OfUrl(rows[1..], url)
  }

  // What was written under the URL since its row was inserted.
  function Writes(r: Rules, ops: seq<Operation>, ttl: int, url: string): seq<Row> {
    if ops == [] then []
    else
      var before := Writes(r, ops[..|ops| - 1], ttl, url);
      match ops[|ops| - 1]
      case Upsert(b, now) => before + OfUrl(RowsOf(r, b, b.jobs, now, ttl), url)
      case Purge(now) => if before != [] && before[|before| - 1].ttlAt < now then [] else before
  }

  function LastNonEmpty(values: seq<string>): string {
    if values == [] then ""
    else NonEmpty(values[|values| - 1], LastNonEmpty(values[..|values| - 1]))
  }

  function LastKnown(values: seq<Option<int>>): Option<int> {
    if values == [] then None
    else if values[|values| - 1].Some? then values[|values| - 1]
    else LastKnown(values[..|values| - 1])
  }

  function RoleOf(w: Row): string { w.role }
  function SeniorityOf(w: Row): string { w.seniority }
  function LanguageOf(w: Row): string { w.language }
  function PostedAtOf(w: Row): Option<int> { w.postedAt }

  function Column<T>(rows: seq<Row>, get: Row -> T): (c: seq<T>)
    ensures |c| == |rows| && forall i :: 0 <= i < |c| ==> c[i] == get(rows[i])
  {
    seq(|rows|, i requires 0 <= i < |rows| => get(rows[i]))
  }

  // Facets hold the last non-empty value, the date the last known one, the rest what was written last.
  function Remembered(writes: seq<Row>): Row
    requires writes != []
  {
    writes[|writes| - 1].(
      role := LastNonEmpty(Column(writes, RoleOf)),
      seniority := LastNonEmpty(Column(writes, SeniorityOf)),
      language := LastNonEmpty(Column(writes, LanguageOf)),
      postedAt := LastKnown(Column(writes, PostedAtOf)))
  }

  ghost predicate Holds(t: Table, url: string, writes: seq<Row>) {
    if writes == [] then url !in t else url in t && t[url] == Remembered(writes)
  }

  lemma FacetAppend(writes: seq<Row>, w: Row, get: Row -> string)
    ensures LastNonEmpty(Column(writes + [w], get)) == NonEmpty(get(w), LastNonEmpty(Column(writes, get)))
  {
    assert Column(writes + [w], get)[..|writes|] == Column(writes, get);
  }

  lemma DateAppend(writes: seq<Row>, w: Row)
    ensures LastKnown(Column(writes + [w], PostedAtOf)) ==
            if w.postedAt.Some? then w.postedAt else LastKnown(Column(writes, PostedAtOf))
  {
    assert Column(writes + [w], PostedAtOf)[..|writes|] == Column(writes, PostedAtOf);
  }

  lemma RememberedAppend(writes: seq<Row>, w: Row)
    ensures Remembered(writes + [w]) == if writes == [] then w else MergeRow(Remembered(writes), w)
  {
    assert (writes + [w])[|writes|] == w;
    FacetAppend(writes, w, RoleOf);
    FacetAppend(writes, w, SeniorityOf);
    FacetAppend(writes, w, LanguageOf);
    DateAppend(writes, w);
    if writes == [] {
      assert LastNonEmpty(Column(writes, RoleOf)) == LastNonEmpty(Column(writes, SeniorityOf))
          == LastNonEmpty(Column(writes, LanguageOf)) == "";
      assert LastKnown(Column(writes, PostedAtOf)) == None;
    }
  }

  lemma PutHolds(t: Table, url: string, writes: seq<Row>, key: string, row: Row)
    requires Holds(t, url, writes)
    ensures Holds(Put(t, key, row), url, writes + if key == url then [row] else [])
  {
    if key == url {
      RememberedAppend(writes, row);
    } else {
      assert writes + [] == writes;
    }
  }

  lemma {:induction false} PutAllHolds(t: Table, url: string, writes: seq<Row>, rows: seq<(string, Row)>)
    requires Holds(t, url, writes)
    ensures Holds(PutAll(t, rows), url, writes + OfUrl(rows, url))
    decreases |rows|
  {
    if rows == [] {
      assert writes + [] == writes;
    } else {
      var one := if rows[0].0 == url then [rows[0].1] else [];
      PutHolds(t, url, writes, rows[0].0, rows[0].1);
      PutAllHolds(Put(t, rows[0].0, rows[0].1), url, writes + one, rows[1..]);
      Associate(writes, one, OfUrl(rows[1..], url));
    }
  }

  // After any sequence of batches and purges there is one row per URL written and not purged since, and it
  // is what its writes add up to.
  lemma {:induction false} IndexRemembers(r: Rules, ops: seq<Operation>, ttl: int, url: string)
    ensures Holds(After(r, ops, ttl), url, Writes(r, ops, ttl, url))
  {
    if ops != [] {
      var n := |ops| - 1;
      IndexRemembers(r, ops[..n], ttl, url);
      match ops[n]
      case Upsert(b, now) =>
        PutAllHolds(After(r, ops[..n], ttl), url, Writes(r, ops[..n], ttl, url), RowsOf(r, b, b.jobs, now, ttl));
      case Purge(now) =>
    }
  }

  // ---------------------------------------------------------------- purging

  // A purge changes no count from its own time on.
  lemma PurgeKeepsCounts(r: Rules, t: Table, f: Facets, location: string, at: int, now: int)
    requires at <= now
    ensures Matching(r, Purged(t, at), f, location, now) == Matching(r, t, f, location, now)
  {
  }

  // It does show when the posting comes back: the row written over an expired one equals the row written
  // after a purge if and only if the old one had no facet or date the new one lacks.
  lemma PurgeShowsIff(t: Table, url: string, row: Row, at: int)
    requires url in t && t[url].ttlAt < at
    ensures Put(Purged(t, at), url, row)[url] == Put(t, url, row)[url] <==>
            && (row.role == "" ==> t[url].role == "")
            && (row.seniority == "" ==> t[url].seniority == "")
            && (row.language == "" ==> t[url].language == "")
            && (row.postedAt.None? ==> t[url].postedAt.None?)
  {
  }

  // An expired row with a role, its posting seen again without one.
  lemma PurgeForgetsRole(url: string)
    ensures var old', new' := Row("", "", "cook", "", "", None, 1), Row("", "", "", "", "", None, 9);
            var t: Table := map[url := old'];
            Put(Purged(t, 2), url, new')[url].role == "" && Put(t, url, new')[url].role == "cook"
  {
  }
}
