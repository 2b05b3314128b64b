// What the HMAC chain is for: which changes to a log `verify_chain` notices.
module AuditEvidence {
  import opened Wrappers
  import opened Sequences
  import opened CanonicalJson
  import opened AuditChain

  ghost predicate Injective<T>(f: string -> T) {
    forall x, y :: f(x) == f(y) ==> x == y
  }

  // ---------------------------------------------------------------- editing

  // The same record up to the JSON type `chain_hmac` is written in, which only `str` of it matters for.
  predicate SameRecord(p: Platform, d: Dict, e: Dict) {
    Body(d) == Body(e) && StoredHmac(p, d) == StoredHmac(p, e)
  }

  predicate HmacIsText(d: Dict) {
    "chain_hmac" in d && d["chain_hmac"].JStr?
  }

  lemma SameTextRecord(p: Platform, d: Dict, e: Dict)
    requires SameRecord(p, d, e) && HmacIsText(d) && HmacIsText(e)
    ensures d == e
  {
    assert d["chain_hmac"] == JStr(StoredHmac(p, d)) == e["chain_hmac"];
    forall k | k in d || k in e ensures k in d && k in e && d[k] == e[k] {
      if k != "chain_hmac" {
        assert k in Body(d) || k in Body(e);
        assert k in Body(d) && k in Body(e) && Body(d)[k] == Body(e)[k];
      }
    }
  }

  // The signed text splits in one way only: canonical JSON holds no newline.
  lemma SplitAtNewline(s: string, t: string, x: string, y: string)
    requires s + "\n" + x == t + "\n" + y && Printable(x) && Printable(y)
    ensures s == t && x == y
  {
    var a := s + "\n" + x;
    assert a[|s|] == '\n' && a[|t|] == '\n';
    assert forall i :: |s| < i < |a| ==> a[i] == x[i - |s| - 1];
    assert forall i :: |t| < i < |a| ==> a[i] == y[i - |t| - 1];
    assert |s| == |t|;
    assert s == a[..|s|] && t == a[..|t|] && x == a[|s| + 1..] && y == a[|t| + 1..];
  }

  lemma LinkInjective(p: Platform, s: string, t: string, d: Dict, e: Dict)
    requires Injective(p.hmac) && Link(p, s, d) == Link(p, t, e)
    ensures s == t && Body(d) == Body(e)
  {
    PrintPrintable(JObj(Body(d)));
    PrintPrintable(JObj(Body(e)));
    SplitAtNewline(s, t, Canonical(d), Canonical(e));
    PrintInjective(JObj(Body(d)), JObj(Body(e)));
  }

  lemma ChainPrefix(p: Platform, records: seq<Dict>, n: nat)
    requires Chain(p, records) && n <= |records|
    ensures Chain(p, records[..n])
  {
    forall i | 0 <= i < n ensures ChainAt(p, records[..n], i) {
      assert ChainAt(p, records, i);
      assert records[..n][..i] == records[..i];
    }
  }

  lemma SameBodySameNumber(d: Dict, e: Dict)
    requires Body(d) == Body(e)
    ensures SeqNo(d) == SeqNo(e)
  {
    assert "sequence_no" in d <==> "sequence_no" in Body(d);
    assert "sequence_no" in e <==> "sequence_no" in Body(e);
  }

  // The head HMAC commits to the whole history, its length included.
  lemma {:induction false} HeadCommits(p: Platform, a: seq<Dict>, b: seq<Dict>)
    requires Injective(p.hmac) && Chain(p, a) && Chain(p, b)
    requires a != [] && b != [] && Head(p, a) == Head(p, b)
    ensures |a| == |b| && forall i :: 0 <= i < |a| ==> SameRecord(p, a[i], b[i])
  {
    var m, n := |a| - 1, |b| - 1;
    assert ChainAt(p, a, m) && ChainAt(p, b, n);
    LinkInjective(p, Head(p, a[..m]), Head(p, b[..n]), a[m], b[n]);
    SameBodySameNumber(a[m], b[n]);
    assert m == n;
    if m > 0 {
      ChainPrefix(p, a, m);
      ChainPrefix(p, b, n);
      HeadCommits(p, a[..m], b[..n]);
      forall i | 0 <= i < |a| ensures SameRecord(p, a[i], b[i]) {
        if i < m { assert a[i] == a[..m][i] && b[i] == b[..n][i]; }
      }
    }
  }

  // The records of a log in sequence order.
  function Records(files: seq<LogFile>): seq<Dict> { SortBySeq(Objects(files)) }

  // Two non-empty logs that `verify_chain` accepts under one salt and that end in the same HMAC hold the
  // same records, one for one.
  lemma TamperEvident(p: Platform, logs: seq<LogFile>, others: seq<LogFile>)
    requires Injective(p.hmac)
    requires Accepted(Verified(p, logs)) && Accepted(Verified(p, others))
    requires Records(logs) != [] && Records(others) != []
    requires Head(p, Records(logs)) == Head(p, Records(others))
    ensures |Records(logs)| == |Records(others)|
    ensures forall i :: 0 <= i < |Records(logs)| ==>
              var d, e := Records(logs)[i], Records(others)[i];
              SameRecord(p, d, e) && (HmacIsText(d) && HmacIsText(e) ==> d == e)
  {
    AcceptedIff(p, logs);
    AcceptedIff(p, others);
    var a, b := Records(logs), Records(others);
    HeadCommits(p, a, b);
    forall i | 0 <= i < |a| && HmacIsText(a[i]) && HmacIsText(b[i]) ensures a[i] == b[i] {
      SameTextRecord(p, a[i], b[i]);
    }
  }

  // ---------------------------------------------------------------- deleting

  function Keep(records: seq<Dict>, kept: seq<bool>): seq<Dict>
    requires |kept| == |records|
  {
    if records == [] then []
    else (if kept[0] then [records[0]] else []) + Keep(records[1..], kept[1..])
  }

  ghost predicate DeletesSuffix(kept: seq<bool>) {
    forall i, j :: 0 <= i < j < |kept| && kept[j] ==> kept[i]
  }

  lemma {:induction false} KeepMembers(records: seq<Dict>, kept: seq<bool>)
    requires |kept| == |records|
    ensures forall d :: d in Keep(records, kept) <==> exists k :: 0 <= k < |records| && kept[k] && records[k] == d
  {
    if records != [] {
      KeepMembers(records[1..], kept[1..]);
      forall d ensures d in Keep(records, kept) <==> exists k :: 0 <= k < |records| && kept[k] && records[k] == d {
        if d in Keep(records[1..], kept[1..]) {
          var k :| 0 <= k < |records[1..]| && kept[1..][k] && records[1..][k] == d;
          assert kept[k + 1] && records[k + 1] == d;
        }
        if exists k :: 0 <= k < |records| && kept[k] && records[k] == d {
          var k :| 0 <= k < |records| && kept[k] && records[k] == d;
          if k > 0 { assert kept[1..][k - 1] && records[1..][k - 1] == d; }
        }
      }
    }
  }

  lemma {:induction false} KeepPrefix(records: seq<Dict>, kept: seq<bool>) returns (n: nat)
    requires |kept| == |records| && DeletesSuffix(kept)
    ensures n <= |records| && Keep(records, kept) == records[..n]
  {
    if records == [] || !kept[0] {
      n := 0;
      KeepMembers(records, kept);
      if Keep(records, kept) != [] {
        assert Keep(records, kept)[0] in Keep(records, kept);
        assert false;
      }
    } else {
      forall i, j | 0 <= i < j < |kept[1..]| && kept[1..][j] ensures kept[1..][i] {
        assert kept[j + 1] && kept[i + 1] == kept[1..][i];
      }
      var m := KeepPrefix(records[1..], kept[1..]);
      n := m + 1;
      assert records[..n] == [records[0]] + records[1..][..m];
    }
  }

  // Deleting records from an intact log goes unnoticed exactly when they are its last ones.
  lemma DeletionNoticedIff(p: Platform, records: seq<Dict>, kept: seq<bool>, files: seq<LogFile>)
    requires Chain(p, records) && |kept| == |records|
    requires Clean(files) && multiset(Objects(files)) == multiset(Keep(records, kept))
    ensures Accepted(Verified(p, files)) <==> DeletesSuffix(kept)
  {
    AcceptedIffArrangement(p, files);
    if DeletesSuffix(kept) {
      var n := KeepPrefix(records, kept);
      ChainPrefix(p, records, n);
    }
    if exists chain: seq<Dict> :: Chain(p, chain) && multiset(chain) == multiset(Objects(files)) {
      var chain: seq<Dict> :| Chain(p, chain) && multiset(chain) == multiset(Objects(files));
      forall i, j | 0 <= i < j < |kept| && kept[j] ensures kept[i] {
        GapNoticed(p, records, kept, chain, i, j);
      }
    }
  }

  lemma GapNoticed(p: Platform, records: seq<Dict>, kept: seq<bool>, chain: seq<Dict>, i: nat, j: nat)
    requires Chain(p, records) && |kept| == |records| && i < j < |kept| && kept[j]
    requires Chain(p, chain) && multiset(chain) == multiset(Keep(records, kept))
    ensures kept[i]
  {
    KeepMembers(records, kept);
    assert records[j] in Keep(records, kept);
    var k := PlaceInChain(p, chain, Keep(records, kept), records[j]);
    assert ChainAt(p, records, j);
    assert ChainAt(p, chain, i);
    assert chain[i] in multiset(chain);
    assert chain[i] in Keep(records, kept);
    var l :| 0 <= l < |records| && kept[l] && records[l] == chain[i];
    assert ChainAt(p, records, l);
  }

  lemma PlaceInChain(p: Platform, chain: seq<Dict>, others: seq<Dict>, d: Dict) returns (k: nat)
    requires Chain(p, chain) && multiset(chain) == multiset(others) && d in others
    ensures k < |chain| && chain[k] == d && SeqNo(d) == Some(k + 1)
  {
    assert d in multiset(others);
    assert d in chain;
    k :| 0 <= k < |chain| && chain[k] == d;
    assert ChainAt(p, chain, k);
  }

  // ---------------------------------------------------------------- rearranging files

  lemma {:induction false} ObjectsConcat(a: seq<LogFile>, b: seq<LogFile>)
    ensures Objects(a + b) == Objects(a) + Objects(b)
  {
    if a == [] {
      assert a + b == b;
    } else {
      assert (a + b)[1..] == a[1..] + b;
      ObjectsConcat(a[1..], b);
    }
  }

  lemma {:induction false} ObjectsPermute(a: seq<LogFile>, b: seq<LogFile>)
    requires multiset(a) == multiset(b)
    ensures multiset(Objects(a)) == multiset(Objects(b)) && (Clean(a) <==> Clean(b))
  {
    assert |a| == |multiset(a)| == |multiset(b)| == |b|;
    if a != [] {
      assert a[0] in multiset(a);
      assert a[0] in b;
      var j :| 0 <= j < |b| && b[j] == a[0];
      var rest := b[..j] + b[j + 1..];
      TakeOut(a, 0);
      TakeOut(b, j);
      assert a[..0] + a[0 + 1..] == a[1..];
      ObjectsPermute(a[1..], rest);
      ObjectsMoveFront(b, j);
      ObjectsConcat([a[0]], a[1..]);
      CleanTakeOut(a, 0);
      CleanTakeOut(b, j);
    }
  }

  lemma CleanTakeOut(s: seq<LogFile>, j: nat)
    requires j < |s|
    ensures Clean(s) <==> Clean([s[j]]) && Clean(s[..j] + s[j + 1..])
  {
    TakeOut(s, j);
    assert forall f :: f in s <==> f == s[j] || f in s[..j] + s[j + 1..];
    assert forall f :: f in [s[j]] <==> f == s[j];
  }

  lemma ObjectsMoveFront(b: seq<LogFile>, j: nat)
    requires j < |b|
    ensures multiset(Objects(b)) == multiset(Objects([b[j]])) + multiset(Objects(b[..j] + b[j + 1..]))
  {
    TakeOut(b, j);
    ObjectsConcat(b[..j], [b[j]] + b[j + 1..]);
    ObjectsConcat([b[j]], b[j + 1..]);
    ObjectsConcat(b[..j], b[j + 1..]);
  }

  // The verdict depends neither on the order of the paths nor on how the records are spread over files.
  lemma VerdictIgnoresLayout(p: Platform, a: seq<LogFile>, b: seq<LogFile>)
    requires multiset(a) == multiset(b)
          || (Clean(a) && Clean(b) && multiset(Objects(a)) == multiset(Objects(b)))
    ensures Accepted(Verified(p, a)) <==> Accepted(Verified(p, b))
    ensures Accepted(Verified(p, a)) ==> Verified(p, a) == Verified(p, b)
  {
    if multiset(a) == multiset(b) { ObjectsPermute(a, b); }
    AcceptedIffArrangement(p, a);
    AcceptedIffArrangement(p, b);
    AcceptedIff(p, a);
    AcceptedIff(p, b);
    if Clean(a) {
      assert |Objects(a)| == |multiset(Objects(a))| == |multiset(Objects(b))| == |Objects(b)|;
    }
  }
}
