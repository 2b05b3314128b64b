// The record format of the Article 12 log and the auditor's `verify_chain`.
module AuditChain {
  import opened Wrappers
  import opened CanonicalJson

  predicate IsAscii(s: string) { forall i :: 0 <= i < |s| ==> s[i] < '\U{0080}' }

  // What a hex digest is written in, as far as comparing digests cares.
  type AsciiText = s: string | IsAscii(s) witness ""

  // What the log takes from its surroundings: the hex HMAC-SHA256 under the deployment's salt, the hex
  // SHA-256 of a text, `str` of a JSON value that is not a string, and the form identifiers are logged in.
  datatype Platform = Platform(hmac: string -> AsciiText, sha256: string -> string, repr: Json -> string,
                               hashId: string -> string)

  // A line of a log file as a reader sees it, after `strip` and `json.loads`. Where the file stops being
  // UTF-8, reading on raises; so does parsing text that is no mere syntax error but too much for the parser
  // (an integer of more digits than Python converts, nesting deeper than its stack).
  datatype Line = Blank | Malformed | Parsed(value: Json) | Undecodable | Unparsable

  predicate StopsReader(line: Line) { line.Undecodable? || line.Unparsable? }

  datatype LogFile = Missing | Readable(lines: seq<Line>)

  // ---------------------------------------------------------------- records

  predicate IsV2(d: Dict) {
    "schema_version" in d && d["schema_version"] == JStr("v2")
  }

  // `isinstance(seq, int)` also accepts a boolean, which Python counts as 0 or 1.
  function SeqNo(d: Dict): Option<int> {
    if "sequence_no" !in d then None
    else match d["sequence_no"]
      case JInt(n) => Some(n)
      case JBool(b) => Some(if b then 1 else 0)
      case _ => None
  }

  function Num(d: Dict): int {
    match SeqNo(d) case Some(n) => n case None => 0
  }

  function Text(p: Platform, v: Json): string {
    if v.JStr? then v.s else p.repr(v)
  }

  predicate Falsy(v: Json) {
    match v
    case JNull => true
    case JBool(b) => !b
    case JInt(n) => n == 0
    case JFloat(t) => t == "0.0" || t == "-0.0"
    case JStr(s) => s == ""
    case JArr(items) => items == []
    case JObj(fields) => fields == map[]
  }

  // `str(obj.get("chain_hmac", "") or "")`
  function StoredHmac(p: Platform, d: Dict): string {
    if "chain_hmac" !in d || Falsy(d["chain_hmac"]) then "" else Text(p, d["chain_hmac"])
  }

  function Body(d: Dict): Dict { d - {"chain_hmac"} }

  function Canonical(d: Dict): string { Print(JObj(Body(d))) }

  function Link(p: Platform, prev: string, d: Dict): string {
    p.hmac(prev + "\n" + Canonical(d))
  }

  // ---------------------------------------------------------------- the intact chain

  function Head(p: Platform, records: seq<Dict>): string {
    if records == [] then "" else StoredHmac(p, records[|records| - 1])
  }

  // Records numbered 1, 2, 3, ... each carrying the HMAC of its predecessor's HMAC and its own content.
  ghost predicate Chain(p: Platform, records: seq<Dict>) {
    forall i :: 0 <= i < |records| ==> ChainAt(p, records, i)
  }

  ghost predicate ChainAt(p: Platform, records: seq<Dict>, i: nat)
    requires i < |records|
  {
    && IsV2(records[i])
    && SeqNo(records[i]) == Some(i + 1)
    && StoredHmac(p, records[i]) == Link(p, Head(p, records[..i]), records[i])
  }

  // ---------------------------------------------------------------- reading

  datatype BreakReason =
    | MalformedJson | UnsupportedSchemaVersion | MissingSequenceNo | FileReadError
    | ChainDoesNotStartAtOne | SequenceGap | HmacMismatch

  // Reading either raises (see `StopsReader`, or JSON that is no object and has no `get`), stops at the first
  // unacceptable line or file, or collects every record.
  datatype ReadResult = ReadRaised | Stopped(reason: BreakReason, count: nat) | Collected(records: seq<Dict>)

  function ReadLines(lines: seq<Line>, acc: seq<Dict>): ReadResult {
    if lines == [] then Collected(acc)
    else match lines[0]
      case Blank => ReadLines(lines[1..], acc)
      case Malformed => Stopped(MalformedJson, |acc|)
      case Undecodable => ReadRaised
      case Unparsable => ReadRaised
      case Parsed(v) =>
        if !v.JObj? then ReadRaised
        else if !IsV2(v.fields) then Stopped(UnsupportedSchemaVersion, |acc|)
        else if SeqNo(v.fields).None? then Stopped(MissingSequenceNo, |acc|)
        else ReadLines(lines[1..], acc + [v.fields])
  }

  function ReadFiles(files: seq<LogFile>, acc: seq<Dict>): ReadResult {
    if files == [] then Collected(acc)
    else match files[0]
      case Missing => Stopped(FileReadError, |acc|)
      case Readable(lines) =>
        match ReadLines(lines, acc)
        case Collected(more) => ReadFiles(files[1..], more)
        case other => other
  }

  predicate CleanLine(line: Line) {
    line.Blank? || (line.Parsed? && line.value.JObj? && IsV2(line.value.fields) && SeqNo(line.value.fields).Some?)
  }

  predicate Clean(files: seq<LogFile>) {
    forall f :: f in files ==> f.Readable? && forall line :: line in f.lines ==> CleanLine(line)
  }

  function LineObjects(lines: seq<Line>): seq<Dict> {
    if lines == [] then []
    else (if lines[0].Parsed? && lines[0].value.JObj? then [lines[0].value.fields] else []) + LineObjects(lines[1..])
  }

  // Every JSON object in the files, in reading order.
  function Objects(files: seq<LogFile>): seq<Dict> {
    if files == [] then []
    else (if files[0].Readable? then LineObjects(files[0].lines) else []) + Objects(files[1..])
  }

  lemma {:induction false} ReadLinesCollects(lines: seq<Line>, acc: seq<Dict>)
    ensures ReadLines(lines, acc).Collected? <==> forall line :: line in lines ==> CleanLine(line)
    ensures ReadLines(lines, acc).Collected? ==> ReadLines(lines, acc).records == acc + LineObjects(lines)
  {
    if lines != [] {
      assert lines[0] in lines && forall line :: line in lines <==> line == lines[0] || line in lines[1..];
      var acc' := if lines[0].Parsed? && lines[0].value.JObj? then acc + [lines[0].value.fields] else acc;
      ReadLinesCollects(lines[1..], acc');
    }
  }

  lemma {:induction false} ReadFilesCollects(files: seq<LogFile>, acc: seq<Dict>)
    ensures ReadFiles(files, acc).Collected? <==> Clean(files)
    ensures ReadFiles(files, acc).Collected? ==> ReadFiles(files, acc).records == acc + Objects(files)
  {
    if files != [] {
      assert forall f :: f in files <==> f == files[0] || f in files[1..];
      if files[0].Readable? {
        ReadLinesCollects(files[0].lines, acc);
        if ReadLines(files[0].lines, acc).Collected? {
          ReadFilesCollects(files[1..], ReadLines(files[0].lines, acc).records);
        }
      }
    }
  }

  // ---------------------------------------------------------------- sorting

  // `all_records.sort(key=...)`: a stable sort on the sequence number.
  function Insert(d: Dict, sorted: seq<Dict>): seq<Dict> {
    if sorted == [] || Num(d) <= Num(sorted[0]) then [d] + sorted
    else [sorted[0]] + Insert(d, sorted[1..])
  }

  function SortBySeq(s: seq<Dict>): seq<Dict> {
    if s == [] then [] else Insert(s[0], SortBySeq(s[1..]))
  }

  predicate Ascending(s: seq<Dict>) {
    |s| < 2 || (Num(s[0]) <= Num(s[1]) && Ascending(s[1..]))
  }

  lemma {:induction false} HeadLeast(s: seq<Dict>)
    requires Ascending(s) && s != []
    ensures forall d :: d in s ==> Num(s[0]) <= Num(d)
  {
    if |s| >= 2 {
      HeadLeast(s[1..]);
      assert forall d :: d in s ==> d == s[0] || d in s[1..];
    }
  }

  lemma {:induction false} LastGreatest(s: seq<Dict>)
    requires Ascending(s) && s != []
    ensures forall d :: d in s ==> Num(d) <= Num(s[|s| - 1])
  {
    if |s| > 1 {
      LastGreatest(s[1..]);
      assert s[1..][|s| - 2] == s[|s| - 1];
      assert forall d :: d in s ==> d == s[0] || d in s[1..];
      assert s[1] in s[1..];
    }
  }

  lemma {:induction false} InsertSorts(d: Dict, s: seq<Dict>)
    requires Ascending(s)
    ensures Ascending(Insert(d, s))
  {
    if s != [] && Num(d) > Num(s[0]) {
      InsertSorts(d, s[1..]);
      var r := Insert(d, s[1..]);
      assert r[0] == d || (|s| >= 2 && r[0] == s[1]);
      assert ([s[0]] + r)[1..] == r;
    } else {
      assert ([d] + s)[1..] == s;
    }
  }

  lemma {:induction false} InsertAdds(d: Dict, s: seq<Dict>)
    ensures multiset(Insert(d, s)) == multiset(s) + multiset{d}
  {
    if s != [] && Num(d) > Num(s[0]) {
      InsertAdds(d, s[1..]);
      assert s == [s[0]] + s[1..];
    }
  }

  lemma {:induction false} SortAscends(s: seq<Dict>)
    ensures Ascending(SortBySeq(s))
  {
    if s != [] {
      SortAscends(s[1..]);
      InsertSorts(s[0], SortBySeq(s[1..]));
    }
  }

  lemma {:induction false} SortSorts(s: seq<Dict>)
    ensures Ascending(SortBySeq(s)) && multiset(SortBySeq(s)) == multiset(s)
  {
    SortAscends(s);
    if s != [] {
      SortSorts(s[1..]);
      InsertAdds(s[0], SortBySeq(s[1..]));
      RemoveHead(s);
    }
  }

  ghost predicate Consecutive(s: seq<Dict>, first: int) {
    forall i {:trigger s[i]} :: 0 <= i < |s| ==> Num(s[i]) == first + i
  }

  // Sorting recovers the one consecutively numbered arrangement of a collection, if there is one.
  lemma {:induction false} ConsecutiveUnique(a: seq<Dict>, b: seq<Dict>, first: int)
    requires multiset(a) == multiset(b) && Consecutive(a, first) && Ascending(b)
    ensures a == b
  {
    assert |a| == |multiset(a)| == |multiset(b)| == |b|;
    if a != [] {
      SameHead(a, b, first);
      RemoveHead(a);
      RemoveHead(b);
      ConsecutiveUnique(a[1..], b[1..], first + 1);
    }
  }

  lemma SameHead(a: seq<Dict>, b: seq<Dict>, first: int)
    requires multiset(a) == multiset(b) && Consecutive(a, first) && Ascending(b) && a != [] && b != []
    ensures a[0] == b[0]
  {
    HeadLeast(b);
    assert a[0] in multiset(a) && b[0] in multiset(b);
    assert a[0] in b && b[0] in a;
    var j :| 0 <= j < |a| && a[j] == b[0];
    assert Num(a[j]) == first + j && Num(a[0]) == first;
  }

  lemma RemoveHead(s: seq<Dict>)
    requires s != []
    ensures s == [s[0]] + s[1..] && multiset(s[1..]) == multiset(s) - multiset{s[0]}
  {
    assert s == [s[0]] + s[1..];
  }

  // ---------------------------------------------------------------- judging the sorted records

  datatype Verdict =
    | Raised
    | Verdict(ok: bool, recordsChecked: nat, breakAt: Option<int>, reason: Option<BreakReason>, missing: seq<int>)

  // The first expected number, from k on, that the sorted records do not show in its place.
  function FirstGap(s: seq<Dict>, k: nat): Option<int>
    requires 1 <= k <= |s| + 1
    decreases |s| - k + 1
  {
    if k > |s| then None
    else if Num(s[k - 1]) != k then Some(k)
    else FirstGap(s, k + 1)
  }

  function Absent(present: set<int>, upTo: int): seq<int>
    decreases upTo
  {
    if upTo < 1 then []
    else Absent(present, upTo - 1) + (if upTo in present then [] else [upTo])
  }

  // `compare_digest` refuses to compare text that is not ASCII.
  datatype Fault = NoFault | MismatchAt(number: int) | Incomparable

  function FirstFault(p: Platform, s: seq<Dict>, prev: string): Fault {
    if s == [] then NoFault
    else if !IsAscii(StoredHmac(p, s[0])) then Incomparable
    else if StoredHmac(p, s[0]) != Link(p, prev, s[0]) then MismatchAt(Num(s[0]))
    else FirstFault(p, s[1..], StoredHmac(p, s[0]))
  }

  function Numbers(s: seq<Dict>): set<int> { set d | d in s :: Num(d) }

  function Judge(p: Platform, s: seq<Dict>): Verdict {
    if s != [] && Num(s[0]) != 1 then
      Verdict(false, |s|, Some(Num(s[0])), Some(ChainDoesNotStartAtOne), [])
    else if FirstGap(s, 1).Some? then
      Verdict(false, |s|, FirstGap(s, 1), Some(SequenceGap),
              if s == [] then [] else Absent(Numbers(s), Num(s[|s| - 1])))
    else match FirstFault(p, s, "")
      case NoFault => Verdict(true, |s|, None, None, [])
      case MismatchAt(n) => Verdict(false, |s|, Some(n), Some(HmacMismatch), [])
      case Incomparable => Raised
  }

  function Verified(p: Platform, files: seq<LogFile>): Verdict {
    match ReadFiles(files, [])
    case ReadRaised => Raised
    case Stopped(reason, count) => Verdict(false, count, None, Some(reason), [])
    case Collected(records) => Judge(p, SortBySeq(records))
  }

  predicate Accepted(v: Verdict) { v.Verdict? && v.ok }

  // `verify_chain`, loop by loop.
  method VerifyChain(p: Platform, files: seq<LogFile>) returns (v: Verdict)
    ensures v == Verified(p, files)
  {
    var allRecords: seq<Dict> := [];
    var i := 0;
    while i < |files|
      invariant 0 <= i <= |files|
      invariant ReadFiles(files, []) == ReadFiles(files[i..], allRecords)
    {
      if files[i].Missing? {
        return Verdict(false, |allRecords|, None, Some(FileReadError), []);
      }
      var lines := files[i].lines;
      ghost var before := allRecords;
      var j := 0;
      while j < |lines|
        invariant 0 <= j <= |lines|
        invariant ReadLines(lines, before) == ReadLines(lines[j..], allRecords)
      {
        if StopsReader(lines[j]) {
          return Raised;
        }
        if lines[j].Malformed? {
          return Verdict(false, |allRecords|, None, Some(MalformedJson), []);
        }
        if lines[j].Parsed? {
          var obj := lines[j].value;
          if !obj.JObj? {
            return Raised;
          }
          if !IsV2(obj.fields) {
            return Verdict(false, |allRecords|, None, Some(UnsupportedSchemaVersion), []);
          }
          if SeqNo(obj.fields).None? {
            return Verdict(false, |allRecords|, None, Some(MissingSequenceNo), []);
          }
          allRecords := allRecords + [obj.fields];
        }
        assert lines[j..][1..] == lines[j + 1..];
        j := j + 1;
      }
      assert files[i..][1..] == files[i + 1..];
      i := i + 1;
    }
    var s := SortBySeq(allRecords);
    if s != [] && Num(s[0]) != 1 {
      return Verdict(false, |s|, Some(Num(s[0])), Some(ChainDoesNotStartAtOne), []);
    }
    var expected := 1;
    while expected <= |s|
      invariant 1 <= expected <= |s| + 1
      invariant FirstGap(s, 1) == FirstGap(s, expected)
    {
      if Num(s[expected - 1]) != expected {
        return Verdict(false, |s|, Some(expected), Some(SequenceGap), Absent(Numbers(s), Num(s[|s| - 1])));
      }
      expected := expected + 1;
    }
    var prevHmac := "";
    var k := 0;
    while k < |s|
      invariant 0 <= k <= |s|
      invariant FirstFault(p, s, "") == FirstFault(p, s[k..], prevHmac)
    {
      if !IsAscii(StoredHmac(p, s[k])) {
        return Raised;
      }
      if StoredHmac(p, s[k]) != Link(p, prevHmac, s[k]) {
        return Verdict(false, |s|, Some(Num(s[k])), Some(HmacMismatch), []);
      }
      prevHmac := StoredHmac(p, s[k]);
      assert s[k..][1..] == s[k + 1..];
      k := k + 1;
    }
    v := Verdict(true, |s|, None, None, []);
  }

  // ---------------------------------------------------------------- what acceptance means

  lemma {:induction false} FirstGapNone(s: seq<Dict>, k: nat)
    requires 1 <= k <= |s| + 1
    ensures FirstGap(s, k).None? <==> forall i :: k - 1 <= i < |s| ==> Num(s[i]) == i + 1
    decreases |s| - k + 1
  {
    if k <= |s| && Num(s[k - 1]) == k {
      FirstGapNone(s, k + 1);
    }
  }

  ghost predicate Linked(p: Platform, s: seq<Dict>, prev: string) {
    forall i :: 0 <= i < |s| ==> LinkedAt(p, s, prev, i)
  }

  ghost predicate LinkedAt(p: Platform, s: seq<Dict>, prev: string, i: nat)
    requires i < |s|
  {
    StoredHmac(p, s[i]) == Link(p, if i == 0 then prev else StoredHmac(p, s[i - 1]), s[i])
  }

  lemma {:induction false} FirstFaultNone(p: Platform, s: seq<Dict>, prev: string)
    ensures FirstFault(p, s, prev).NoFault? <==> Linked(p, s, prev)
  {
    if s != [] {
      var next := StoredHmac(p, s[0]);
      assert LinkedAt(p, s, prev, 0) <==> next == Link(p, prev, s[0]);
      FirstFaultNone(p, s[1..], next);
      forall i | 0 <= i < |s[1..]| ensures LinkedAt(p, s[1..], next, i) <==> LinkedAt(p, s, prev, i + 1) {
      }
      if Linked(p, s[1..], next) && LinkedAt(p, s, prev, 0) {
        forall i | 0 <= i < |s| ensures LinkedAt(p, s, prev, i) {
          assert i > 0 ==> LinkedAt(p, s[1..], next, i - 1);
        }
      }
    }
  }

  lemma ChainIsLinked(p: Platform, s: seq<Dict>)
    requires forall d :: d in s ==> IsV2(d) && SeqNo(d).Some?
    ensures Chain(p, s) <==> Consecutive(s, 1) && Linked(p, s, "")
  {
    forall i | 0 <= i < |s| ensures ChainAt(p, s, i) <==> Num(s[i]) == 1 + i && LinkedAt(p, s, "", i) {
      assert s[i] in s;
      assert Head(p, s[..i]) == if i == 0 then "" else StoredHmac(p, s[i - 1]);
    }
    if Chain(p, s) {
      forall i | 0 <= i < |s| ensures Num(s[i]) == 1 + i && LinkedAt(p, s, "", i) {
        assert ChainAt(p, s, i);
      }
    }
    if Consecutive(s, 1) && Linked(p, s, "") {
      forall i | 0 <= i < |s| ensures ChainAt(p, s, i) {
        assert LinkedAt(p, s, "", i) && Num(s[i]) == 1 + i;
      }
    }
  }

  lemma {:induction false} ObjectsAreClean(files: seq<LogFile>)
    requires Clean(files)
    ensures forall d :: d in Objects(files) ==> IsV2(d) && SeqNo(d).Some?
  {
    if files != [] {
      LinesAreClean(files[0].lines);
      ObjectsAreClean(files[1..]);
    }
  }

  lemma {:induction false} LinesAreClean(lines: seq<Line>)
    requires forall line :: line in lines ==> CleanLine(line)
    ensures forall d :: d in LineObjects(lines) ==> IsV2(d) && SeqNo(d).Some?
  {
    if lines != [] {
      assert lines[0] in lines;
      LinesAreClean(lines[1..]);
    }
  }

  // `verify_chain` accepts exactly the clean files whose records, sorted, are an intact chain.
  lemma AcceptedIff(p: Platform, files: seq<LogFile>)
    ensures Accepted(Verified(p, files)) <==> Clean(files) && Chain(p, SortBySeq(Objects(files)))
    ensures Accepted(Verified(p, files)) ==>
              Verified(p, files) == Verdict(true, |Objects(files)|, None, None, [])
  {
    ReadFilesCollects(files, []);
    assert [] + Objects(files) == Objects(files);
    if Clean(files) {
      var s := SortBySeq(Objects(files));
      SortSorts(Objects(files));
      assert |s| == |multiset(s)| == |Objects(files)|;
      SortedAreClean(files);
      JudgeAccepts(p, s);
    }
  }

  lemma SortedAreClean(files: seq<LogFile>)
    requires Clean(files)
    ensures forall d :: d in SortBySeq(Objects(files)) ==> IsV2(d) && SeqNo(d).Some?
  {
    SortSorts(Objects(files));
    ObjectsAreClean(files);
    forall d | d in SortBySeq(Objects(files)) ensures d in Objects(files) {
      assert d in multiset(SortBySeq(Objects(files)));
    }
  }

  lemma JudgeAccepts(p: Platform, s: seq<Dict>)
    requires forall d :: d in s ==> IsV2(d) && SeqNo(d).Some?
    ensures Accepted(Judge(p, s)) <==> Chain(p, s)
    ensures Accepted(Judge(p, s)) ==> Judge(p, s) == Verdict(true, |s|, None, None, [])
  {
    NumberedIff(s);
    FirstFaultNone(p, s, "");
    ChainIsLinked(p, s);
  }

  lemma NumberedIff(s: seq<Dict>)
    ensures (s == [] || Num(s[0]) == 1) && FirstGap(s, 1).None? <==> Consecutive(s, 1)
  {
    FirstGapNone(s, 1);
  }

  // The same without mentioning the sort: the records are some arrangement of an intact chain, and the
  // verdict therefore depends neither on how records are spread over files nor on their order.
  lemma AcceptedIffArrangement(p: Platform, files: seq<LogFile>)
    ensures Accepted(Verified(p, files)) <==>
              Clean(files) && exists chain: seq<Dict> :: Chain(p, chain) && multiset(chain) == multiset(Objects(files))
  {
    AcceptedIff(p, files);
    SortSorts(Objects(files));
    if Clean(files) && exists chain: seq<Dict> :: Chain(p, chain) && multiset(chain) == multiset(Objects(files)) {
      var chain: seq<Dict> :| Chain(p, chain) && multiset(chain) == multiset(Objects(files));
      SortedChain(p, chain, Objects(files));
    }
  }

  lemma SortedChain(p: Platform, chain: seq<Dict>, objects: seq<Dict>)
    requires Chain(p, chain) && multiset(chain) == multiset(objects)
    ensures SortBySeq(objects) == chain
  {
    SortSorts(objects);
    forall i | 0 <= i < |chain| ensures Num(chain[i]) == 1 + i {
      assert ChainAt(p, chain, i);
    }
    ConsecutiveUnique(chain, SortBySeq(objects), 1);
  }
}
