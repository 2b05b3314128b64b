// The commute graph: the lookup table built from the edge list, and a city's neighbours.
module CityAdjacency {
  import opened Wrappers

  datatype Edge = Edge(a: string, b: string, minutes: int, mode: string)

  // The curated edges and the normaliser of city names.
  datatype Atlas = Atlas(edges: seq<Edge>, norm: string -> string)

  // Both ends of every edge are non-empty and already normalised, and no edge is a loop.
  ghost predicate Curated(g: Atlas) {
    forall i :: 0 <= i < |g.edges| ==> Proper(g, g.edges[i])
  }

  predicate Proper(g: Atlas, e: Edge) {
    e.a != "" && e.b != "" && e.a != e.b && g.norm(e.a) == e.a && g.norm(e.b) == e.b
  }

  // A scan of the edge list.
  function EdgesOf(edges: seq<Edge>, key: string): seq<Edge> {
    if edges == [] then []
    else
      var e := edges[|edges| - 1];
      EdgesOf(edges[..|edges| - 1], key) + (if e.a == key then [e] else []) + (if e.b == key then [e] else [])
  }

  function AppendAt(out: map<string, seq<Edge>>, key: string, e: Edge): map<string, seq<Edge>> {
    out[key := (if key in out then out[key] else []) + [e]]
  }

  function Listed(out: map<string, seq<Edge>>, key: string): seq<Edge> {
    if key in out then out[key] else []
  }

  // The table holds, for every key, what a scan of the edge list finds; keys without an edge are absent.
  method BuildAdjacencyMap(edges: seq<Edge>) returns (out: map<string, seq<Edge>>)
    ensures forall key :: Listed(out, key) == EdgesOf(edges, key)
    ensures forall key :: key in out ==> out[key] != []
  {
    out := map[];
    var i := 0;
    while i < |edges|
      invariant 0 <= i <= |edges|
      invariant forall key :: Listed(out, key) == EdgesOf(edges[..i], key)
      invariant forall key :: key in out ==> out[key] != []
    {
      var e := edges[i];
      ghost var before := out;
      out := AppendAt(out, e.a, e);
      out := AppendAt(out, e.b, e);
      assert edges[..i + 1][..i] == edges[..i];
      forall key ensures Listed(out, key) == EdgesOf(edges[..i + 1], key) {
        AppendBoth(before, e, key);
      }
      i := i + 1;
    }
    assert edges[..i] == edges;
  }

  lemma AppendBoth(out: map<string, seq<Edge>>, e: Edge, key: string)
    ensures Listed(AppendAt(AppendAt(out, e.a, e), e.b, e), key) ==
            Listed(out, key) + (if e.a == key then [e] else []) + (if e.b == key then [e] else [])
  {
  }

  predicate Within(e: Edge, maxMinutes: Option<int>) { maxMinutes.None? || e.minutes <= maxMinutes.value }

  function Reachable(edges: seq<Edge>, maxMinutes: Option<int>): seq<Edge> {
    if edges == [] then []
    else (if Within(edges[0], maxMinutes) then [edges[0]] else []) + Reachable(edges[1..], maxMinutes)
  }

  function AdjacentCities(g: Atlas, city: string, maxMinutes: Option<int>): seq<Edge> {
    var key := if city == "" then "" else g.norm(city);
    if key == "" then [] else Reachable(EdgesOf(g.edges, key), maxMinutes)
  }

  function Other(e: Edge, key: string): string { if e.a == key then e.b else e.a }

  // The other ends, each once, in order; the city itself left out.
  function Ends(edges: seq<Edge>, key: string): (r: seq<string>) {
    if edges == [] then []
    else
      var r := Ends(edges[..|edges| - 1], key);
      var other := Other(edges[|edges| - 1], key);
      if other == key || other in r then r else r + [other]
  }

  function Key(g: Atlas, city: string): string { if city == "" then "" else g.norm(city) }

  function NeighbourKeys(g: Atlas, city: string, maxMinutes: Option<int>): seq<string> {
    Ends(AdjacentCities(g, city, maxMinutes), Key(g, city))
  }

  method FindNeighbourKeys(g: Atlas, city: string, maxMinutes: Option<int>) returns (out: seq<string>)
    ensures out == NeighbourKeys(g, city, maxMinutes)
  {
    var key := Key(g, city);
    out := [];
    if key == "" {
      return;
    }
    var edges := AdjacentCities(g, city, maxMinutes);
    var seen: set<string> := {};
    var i := 0;
    while i < |edges|
      invariant 0 <= i <= |edges|
      invariant out == Ends(edges[..i], key)
      invariant forall k :: k in seen <==> k in out
    {
      assert edges[..i + 1][..i] == edges[..i];
      var other := Other(edges[i], key);
      if other != key && other !in seen {
        seen := seen + {other};
        out := out + [other];
      }
      i := i + 1;
    }
    assert edges[..i] == edges;
  }

  // The last of the edges that leads to the other city.
  function EdgeTo(edges: seq<Edge>, key: string, other: string): Option<Edge> {
    if edges == [] then None
    else
      var e := edges[|edges| - 1];
      if Other(e, key) == other then Some(e) else EdgeTo(edges[..|edges| - 1], key, other)
  }

  function Found(byNeighbour: map<string, Edge>, k: string): Option<Edge> {
    if k in byNeighbour then Some(byNeighbour[k]) else None
  }

  method EdgeByNeighbour(edges: seq<Edge>, key: string) returns (byNeighbour: map<string, Edge>)
    ensures forall k :: Found(byNeighbour, k) == EdgeTo(edges, key, k)
  {
    byNeighbour := map[];
    var i := 0;
    while i < |edges|
      invariant 0 <= i <= |edges|
      invariant forall k :: Found(byNeighbour, k) == EdgeTo(edges[..i], key, k)
    {
      assert edges[..i + 1][..i] == edges[..i];
      byNeighbour := byNeighbour[Other(edges[i], key) := edges[i]];
      i := i + 1;
    }
    assert edges[..i] == edges;
  }

  // ---------------------------------------------------------------- what the neighbours are

  // Some edge joins the two within the time.
  ghost predicate Joined(g: Atlas, key: string, other: string, maxMinutes: Option<int>) {
    exists i :: 0 <= i < |g.edges| && Joins(g.edges[i], key, other)
                && (maxMinutes.Some? ==> g.edges[i].minutes <= maxMinutes.value)
  }

  predicate Joins(e: Edge, key: string, other: string) {
    (e.a == key && e.b == other) || (e.b == key && e.a == other)
  }

  lemma {:induction false} EdgesOfMembers(edges: seq<Edge>, key: string)
    ensures forall e :: e in EdgesOf(edges, key) <==> e in edges && (e.a == key || e.b == key)
  {
    if edges != [] {
      var n := |edges| - 1;
      EdgesOfMembers(edges[..n], key);
      assert forall e :: e in edges <==> e in edges[..n] || e == edges[n];
    }
  }

  lemma {:induction false} ReachableMembers(edges: seq<Edge>, maxMinutes: Option<int>)
    ensures forall e :: e in Reachable(edges, maxMinutes) <==> e in edges && Within(e, maxMinutes)
  {
    if edges != [] {
      ReachableMembers(edges[1..], maxMinutes);
      assert forall e :: e in edges <==> e in edges[1..] || e == edges[0];
    }
  }

  predicate EndOf(edges: seq<Edge>, key: string, k: string) {
    exists i :: 0 <= i < |edges| && Other(edges[i], key) == k
  }

  lemma {:induction false} EndsMembers(edges: seq<Edge>, key: string, k: string)
    ensures k in Ends(edges, key) <==> k != key && EndOf(edges, key, k)
  {
    if edges != [] {
      var n := |edges| - 1;
      EndsMembers(edges[..n], key, k);
      assert EndOf(edges, key, k) <==> EndOf(edges[..n], key, k) || Other(edges[n], key) == k by {
        assert forall i :: 0 <= i < n ==> edges[..n][i] == edges[i];
      }
    }
  }

  lemma {:induction false} EndsDistinct(edges: seq<Edge>, key: string)
    ensures forall i, k :: 0 <= i < k < |Ends(edges, key)| ==> Ends(edges, key)[i] != Ends(edges, key)[k]
  {
    if edges != [] { EndsDistinct(edges[..|edges| - 1], key); }
  }

  lemma AdjacentMembers(g: Atlas, city: string, maxMinutes: Option<int>, e: Edge)
    requires Key(g, city) != ""
    ensures e in AdjacentCities(g, city, maxMinutes) <==>
              e in g.edges && (e.a == Key(g, city) || e.b == Key(g, city)) && Within(e, maxMinutes)
  {
    EdgesOfMembers(g.edges, Key(g, city));
    ReachableMembers(EdgesOf(g.edges, Key(g, city)), maxMinutes);
  }

  lemma NeighbourIsJoined(g: Atlas, city: string, maxMinutes: Option<int>, k: string)
    requires k in NeighbourKeys(g, city, maxMinutes)
    ensures Joined(g, Key(g, city), k, maxMinutes)
  {
    var key := Key(g, city);
    var edges := AdjacentCities(g, city, maxMinutes);
    EndsMembers(edges, key, k);
    var i :| 0 <= i < |edges| && Other(edges[i], key) == k;
    assert edges[i] in edges;
    AdjacentMembers(g, city, maxMinutes, edges[i]);
    var n :| 0 <= n < |g.edges| && g.edges[n] == edges[i];
    assert Joins(g.edges[n], key, k);
  }

  lemma JoinedIsNeighbour(g: Atlas, city: string, maxMinutes: Option<int>, k: string)
    requires Curated(g) && Joined(g, Key(g, city), k, maxMinutes)
    ensures k in NeighbourKeys(g, city, maxMinutes)
  {
    var key := Key(g, city);
    var edges := AdjacentCities(g, city, maxMinutes);
    var n :| 0 <= n < |g.edges| && Joins(g.edges[n], key, k) && Within(g.edges[n], maxMinutes);
    assert Proper(g, g.edges[n]);
    AdjacentMembers(g, city, maxMinutes, g.edges[n]);
    var i :| 0 <= i < |edges| && edges[i] == g.edges[n];
    assert Other(edges[i], key) == k;
    EndsMembers(edges, key, k);
  }

  // The neighbours are exactly the other ends of the city's edges within the time; each is listed once.
  lemma NeighboursIff(g: Atlas, city: string, maxMinutes: Option<int>, k: string)
    requires Curated(g)
    ensures k in NeighbourKeys(g, city, maxMinutes) <==> Joined(g, Key(g, city), k, maxMinutes)
  {
    if k in NeighbourKeys(g, city, maxMinutes) { NeighbourIsJoined(g, city, maxMinutes, k); }
    if Joined(g, Key(g, city), k, maxMinutes) { JoinedIsNeighbour(g, city, maxMinutes, k); }
  }

  lemma {:induction false} EdgeToIs(edges: seq<Edge>, key: string, k: string)
    ensures EdgeTo(edges, key, k).Some? <==> EndOf(edges, key, k)
    ensures EdgeTo(edges, key, k).Some? ==>
        EdgeTo(edges, key, k).value in edges && Other(EdgeTo(edges, key, k).value, key) == k
  {
    if edges != [] {
      var n := |edges| - 1;
      EdgeToIs(edges[..n], key, k);
      assert forall i :: 0 <= i < n ==> edges[..n][i] == edges[i];
      assert EndOf(edges, key, k) <==> EndOf(edges[..n], key, k) || Other(edges[n], key) == k;
    }
  }

  // Every neighbour has an edge within the time that joins it to the city.
  lemma NeighbourHasEdge(g: Atlas, city: string, maxMinutes: Option<int>, k: string)
    requires Curated(g) && k in NeighbourKeys(g, city, maxMinutes)
    ensures var e := EdgeTo(AdjacentCities(g, city, maxMinutes), Key(g, city), k);
            e.Some? && e.value in g.edges && Joins(e.value, Key(g, city), k) && Within(e.value, maxMinutes)
  {
    var key := Key(g, city);
    var edges := AdjacentCities(g, city, maxMinutes);
    EndsMembers(edges, key, k);
    EdgeToIs(edges, key, k);
    EdgesOfMembers(g.edges, key);
    ReachableMembers(EdgesOf(g.edges, key), maxMinutes);
  }

  // Being neighbours is symmetric, whatever the time limit; no city is its own neighbour; neighbours are
  // normalised names.
  lemma NeighboursSymmetric(g: Atlas, city: string, k: string, maxMinutes: Option<int>)
    requires Curated(g) && k in NeighbourKeys(g, city, maxMinutes)
    ensures k != Key(g, city) && k != "" && Key(g, k) == k
    ensures Key(g, city) in NeighbourKeys(g, k, maxMinutes)
  {
    var key := Key(g, city);
    NeighboursIff(g, city, maxMinutes, k);
    var n :| 0 <= n < |g.edges| && Joins(g.edges[n], key, k) && Within(g.edges[n], maxMinutes);
    assert Proper(g, g.edges[n]);
    assert Joins(g.edges[n], k, key);
    NeighboursIff(g, k, maxMinutes, key);
  }
}
