// The salt-free commitment to the ordered records that is published outside the deployment.
module AuditAnchor {
  import opened Wrappers
  import opened Sequences
  import opened CanonicalJson
  import opened AuditChain
  import opened AuditEvidence

  // ---------------------------------------------------------------- reading

  // The v2 objects of a file; `None` when a line stops the reader or is JSON but no object.
  function V2Lines(lines: seq<Line>): Option<seq<Dict>> {
    if lines == [] then Some([])
    else
      var rest := V2Lines(lines[1..]);
      match lines[0]
      case Parsed(v) =>
        if !v.JObj? || rest.None? then None
        else if IsV2(v.fields) && SeqNo(v.fields).Some? then Some([v.fields] + rest.value)
        else rest
      case Undecodable => None
      case Unparsable => None
      case _ => rest
  }

  function V2Files(files: seq<LogFile>): Option<seq<Dict>> {
    if files == [] then Some([])
    else
      var rest := V2Files(files[1..]);
      match files[0]
      case Missing => rest
      case Readable(lines) =>
        if V2Lines(lines).None? || rest.None? then None else Some(V2Lines(lines).value + rest.value)
  }

  function OrderedV2(files: seq<LogFile>): Option<seq<Dict>> {
    match V2Files(files) case None => None case Some(records) => Some(SortBySeq(records))
  }

  function NonemptyInLines(lines: seq<Line>): nat {
    if lines == [] then 0 else (if lines[0].Blank? then 0 else 1) + NonemptyInLines(lines[1..])
  }

  function Nonempty(files: seq<LogFile>): nat {
    if files == [] then 0
    else (if files[0].Missing? then 0 else NonemptyInLines(files[0].lines)) + Nonempty(files[1..])
  }

  // What is left to read from here completes what was collected.
  ghost predicate Completes(all: Option<seq<Dict>>, records: seq<Dict>, left: Option<seq<Dict>>) {
    && (all.Some? <==> left.Some?)
    && (all.Some? ==> all.value == records + left.value)
  }

  function Behind(before: seq<Dict>, r: Option<seq<Dict>>): Option<seq<Dict>> {
    match r case None => None case Some(s) => Some(before + s)
  }

  // What one line adds.
  function V2Of(line: Line): seq<Dict> {
    if line.Parsed? && line.value.JObj? && IsV2(line.value.fields) && SeqNo(line.value.fields).Some? then
      [line.value.fields]
    else []
  }

  predicate Raising(line: Line) { StopsReader(line) || (line.Parsed? && !line.value.JObj?) }

  lemma LineCompletes(all: Option<seq<Dict>>, records: seq<Dict>, lines: seq<Line>, j: nat)
    requires j < |lines| && !Raising(lines[j]) && Completes(all, records, V2Lines(lines[j..]))
    ensures Completes(all, records + V2Of(lines[j]), V2Lines(lines[j + 1..]))
  {
    assert lines[j..][0] == lines[j] && lines[j..][1..] == lines[j + 1..];
    if all.Some? {
      Associate(records, V2Of(lines[j]), V2Lines(lines[j + 1..]).value);
    }
  }

  // `_ordered_v2_records`, one file.
  method ReadV2(lines: seq<Line>, before: seq<Dict>) returns (records: Option<seq<Dict>>)
    ensures records == Behind(before, V2Lines(lines))
  {
    var found := before;
    var j := 0;
    assert lines[0..] == lines;
    while j < |lines|
      invariant 0 <= j <= |lines| && Completes(Behind(before, V2Lines(lines)), found, V2Lines(lines[j..]))
    {
      if StopsReader(lines[j]) || (lines[j].Parsed? && !lines[j].value.JObj?) {
        assert lines[j..][0] == lines[j];
        return None;
      }
      LineCompletes(Behind(before, V2Lines(lines)), found, lines, j);
      found := found + V2Of(lines[j]);
      j := j + 1;
    }
    assert found + [] == found;
    records := Some(found);
  }

  lemma FileCompletes(all: Option<seq<Dict>>, records: seq<Dict>, files: seq<LogFile>, i: nat, found: Option<seq<Dict>>)
    requires i < |files| && Completes(all, records, V2Files(files[i..]))
    requires found == if files[i].Missing? then Some(records) else Behind(records, V2Lines(files[i].lines))
    ensures found.None? ==> all.None?
    ensures found.Some? ==> Completes(all, found.value, V2Files(files[i + 1..]))
  {
    assert files[i..][0] == files[i] && files[i..][1..] == files[i + 1..];
    if all.Some? && files[i].Readable? {
      Associate(records, V2Lines(files[i].lines).value, V2Files(files[i + 1..]).value);
    }
  }

  // `_ordered_v2_records`
  method OrderedV2Records(files: seq<LogFile>) returns (r: Option<seq<Dict>>)
    ensures r == OrderedV2(files)
  {
    var records: seq<Dict> := [];
    var i := 0;
    StartsComplete(files);
    while i < |files|
      invariant 0 <= i <= |files| && Completes(V2Files(files), records, V2Files(files[i..]))
    {
      var found := Some(records);
      if files[i].Readable? {
        found := ReadV2(files[i].lines, records);
      }
      FileCompletes(V2Files(files), records, files, i, found);
      if found.None? {
        return None;
      }
      records := found.value;
      i := i + 1;
    }
    EndsComplete(V2Files(files), records, files[i..]);
    r := Some(SortBySeq(records));
  }

  lemma StartsComplete(files: seq<LogFile>)
    ensures Completes(V2Files(files), [], V2Files(files[0..]))
  {
    assert files[0..] == files;
    if V2Files(files).Some? { Neutral(V2Files(files).value); }
  }

  lemma EndsComplete(all: Option<seq<Dict>>, records: seq<Dict>, left: seq<LogFile>)
    requires left == [] && Completes(all, records, V2Files(left))
    ensures all == Some(records)
  {
    Neutral(records);
  }

  predicate Decodable(files: seq<LogFile>) {
    forall i :: 0 <= i < |files| && files[i].Readable? ==> forall j :: 0 <= j < |files[i].lines| ==>
        !files[i].lines[j].Undecodable?
  }

  // The lines of all files that are not blank; `None` when a file is not UTF-8.
  method CountNonemptyLines(files: seq<LogFile>) returns (total: Option<nat>)
    ensures total == if Decodable(files) then Some(Nonempty(files)) else None
  {
    var count := 0;
    var i := 0;
    while i < |files|
      invariant 0 <= i <= |files| && Decodable(files[..i])
      invariant Nonempty(files) == count + Nonempty(files[i..])
    {
      if files[i].Readable? {
        var lines := files[i].lines;
        ghost var before := count;
        var j := 0;
        while j < |lines|
          invariant 0 <= j <= |lines| && forall k :: 0 <= k < j ==> !lines[k].Undecodable?
          invariant before + NonemptyInLines(lines) == count + NonemptyInLines(lines[j..])
        {
          if lines[j].Undecodable? {
            return None;
          }
          if !lines[j].Blank? {
            count := count + 1;
          }
          assert lines[j..][1..] == lines[j + 1..];
          j := j + 1;
        }
      }
      assert files[i..][1..] == files[i + 1..];
      i := i + 1;
    }
    total := Some(count);
  }

  lemma {:induction false} V2LinesDecodable(lines: seq<Line>)
    requires V2Lines(lines).Some?
    ensures forall j :: 0 <= j < |lines| ==> !lines[j].Undecodable?
  {
    if lines != [] { V2LinesDecodable(lines[1..]); }
  }

  // Where the records can be read, so can the lines be counted.
  lemma {:induction false} OrderedMeansDecodable(files: seq<LogFile>)
    requires V2Files(files).Some?
    ensures Decodable(files)
  {
    if files != [] {
      OrderedMeansDecodable(files[1..]);
      if files[0].Readable? { V2LinesDecodable(files[0].lines); }
      assert forall i :: 1 <= i < |files| ==> files[i] == files[1..][i - 1];
    }
  }

  // ---------------------------------------------------------------- the commitment

  // `"\n".join(canonical(record) for record in records)`
  function Joined(records: seq<Dict>): string {
    if records == [] then ""
    else if |records| == 1 then Print(JObj(records[0]))
    else Print(JObj(records[0])) + "\n" + Joined(records[1..])
  }

  function ContentDigest(p: Platform, records: seq<Dict>): string {
    p.sha256(Joined(records))
  }

  // `str(record.get("chain_hmac", ""))` of the last record.
  function HeadText(p: Platform, records: seq<Dict>): string {
    if records == [] || "chain_hmac" !in records[|records| - 1] then ""
    else Text(p, records[|records| - 1]["chain_hmac"])
  }

  datatype Anchor = Anchor(
    recordCount: int, totalLines: int, lastSequenceNo: int, headChainHmac: string,
    contentDigest: string, createdAt: string)

  function AnchorOf(p: Platform, records: seq<Dict>, lines: nat, createdAt: string): Anchor {
    Anchor(|records|, lines, if records == [] then 0 else Num(records[|records| - 1]), HeadText(p, records),
           ContentDigest(p, records), createdAt)
  }

  function ComputeAnchor(p: Platform, files: seq<LogFile>, createdAt: string): Option<Anchor> {
    match OrderedV2(files)
    case None => None
    case Some(records) =>
      Some(AnchorOf(p, records, Nonempty(files), createdAt))
  }

  datatype AnchorReason = ContentDigestMismatch | RecordCountMismatch | LineCountMismatch | HeadHmacMismatch

  datatype AnchorVerdict = AnchorRaised | AnchorVerdict(ok: bool, reason: Option<AnchorReason>)

  function VerifyAnchor(p: Platform, files: seq<LogFile>, anchor: Anchor): AnchorVerdict {
    match OrderedV2(files)
    case None => AnchorRaised
    case Some(records) =>
      if ContentDigest(p, records) != anchor.contentDigest then AnchorVerdict(false, Some(ContentDigestMismatch))
      else if |records| != anchor.recordCount then AnchorVerdict(false, Some(RecordCountMismatch))
      else if anchor.totalLines >= 0 && Nonempty(files) != anchor.totalLines then
          AnchorVerdict(false, Some(LineCountMismatch))
      else if HeadText(p, records) != anchor.headChainHmac then AnchorVerdict(false, Some(HeadHmacMismatch))
      else AnchorVerdict(true, None)
  }

  predicate Anchored(v: AnchorVerdict) { v.AnchorVerdict? && v.ok }

  predicate ChainAndAnchorOk(p: Platform, files: seq<LogFile>, anchor: Anchor) {
    Accepted(Verified(p, files)) && Anchored(VerifyAnchor(p, files, anchor))
  }

  // ---------------------------------------------------------------- what an anchor pins down

  lemma SplitAtFirstNewline(s: string, t: string, x: string, y: string)
    requires s + "\n" + x == t + "\n" + y && Printable(s) && Printable(t)
    ensures s == t && x == y
  {
    var a := s + "\n" + x;
    assert a[|s|] == '\n' && a[|t|] == '\n';
    assert forall i :: 0 <= i < |s| ==> a[i] == s[i];
    assert forall i :: 0 <= i < |t| ==> a[i] == t[i];
    assert |s| == |t|;
    assert s == a[..|s|] && t == a[..|t|] && x == a[|s| + 1..] && y == a[|t| + 1..];
  }

  lemma JoinedHasNewline(records: seq<Dict>)
    ensures records == [] <==> Joined(records) == ""
    ensures |records| > 1 <==> !Printable(Joined(records))
  {
    if records != [] {
      PrintPrintable(JObj(records[0]));
      if |records| > 1 {
        assert Joined(records)[|Print(JObj(records[0]))|] == '\n';
      }
    }
  }

  // The joined text determines the list of records.
  lemma {:induction false} JoinedInjective(a: seq<Dict>, b: seq<Dict>)
    requires Joined(a) == Joined(b)
    ensures a == b
  {
    JoinedHasNewline(a);
    JoinedHasNewline(b);
    if a != [] {
      PrintPrintable(JObj(a[0]));
      PrintPrintable(JObj(b[0]));
      if |a| == 1 {
        PrintInjective(JObj(a[0]), JObj(b[0]));
      } else {
        SplitAtFirstNewline(Print(JObj(a[0])), Print(JObj(b[0])), Joined(a[1..]), Joined(b[1..]));
        PrintInjective(JObj(a[0]), JObj(b[0]));
        JoinedInjective(a[1..], b[1..]);
      }
      assert a == [a[0]] + a[1..] && b == [b[0]] + b[1..];
    }
  }

  // An anchor holds on later files exactly when they show the same ordered v2 records and as many
  // non-empty lines; an anchor without a line count leaves out the second half.
  lemma AnchorHoldsIff(p: Platform, files: seq<LogFile>, later: seq<LogFile>, createdAt: string)
    requires Injective(p.sha256) && ComputeAnchor(p, files, createdAt).Some?
    ensures var anchor := ComputeAnchor(p, files, createdAt).value;
            && (Anchored(VerifyAnchor(p, later, anchor)) <==>
                  OrderedV2(later) == OrderedV2(files) && Nonempty(later) == Nonempty(files))
            && (Anchored(VerifyAnchor(p, later, anchor.(totalLines := -1))) <==> OrderedV2(later) == OrderedV2(files))
  {
    if OrderedV2(later).Some? {
      var a, b := OrderedV2(files).value, OrderedV2(later).value;
      if ContentDigest(p, a) == ContentDigest(p, b) {
        JoinedInjective(a, b);
      }
    }
  }

  lemma {:induction false} CleanLinesAreV2(lines: seq<Line>)
    requires forall line :: line in lines ==> CleanLine(line)
    ensures V2Lines(lines) == Some(LineObjects(lines)) && NonemptyInLines(lines) == |LineObjects(lines)|
  {
    if lines != [] {
      assert lines[0] in lines;
      CleanLinesAreV2(lines[1..]);
      assert [] + LineObjects(lines[1..]) == LineObjects(lines[1..]);
    }
  }

  // On clean files the anchor reads the very sequence the chain verifier checks.
  lemma {:induction false} CleanFilesAreV2(files: seq<LogFile>)
    requires Clean(files)
    ensures V2Files(files) == Some(Objects(files)) && Nonempty(files) == |Objects(files)|
  {
    if files != [] {
      assert files[0] in files;
      CleanLinesAreV2(files[0].lines);
      CleanFilesAreV2(files[1..]);
    }
  }

  lemma RecordsKeepLength(files: seq<LogFile>)
    ensures |Records(files)| == |Objects(files)|
  {
    SortSorts(Objects(files));
    assert |Records(files)| == |multiset(Records(files))| == |Objects(files)|;
  }

  // On a log the auditor accepts the anchor covers the very records the auditor checked, and chain and anchor
  // together accept exactly the clean logs holding these.
  lemma ChainAndAnchorIff(p: Platform, files: seq<LogFile>, later: seq<LogFile>, createdAt: string)
    requires Injective(p.sha256) && Accepted(Verified(p, files))
    ensures OrderedV2(files) == Some(Records(files)) && Nonempty(files) == |Records(files)|
    ensures ComputeAnchor(p, files, createdAt).Some?
    ensures ChainAndAnchorOk(p, later, ComputeAnchor(p, files, createdAt).value)
            <==> Clean(later) && Records(later) == Records(files)
  {
    AcceptedIff(p, files);
    AcceptedIff(p, later);
    CleanFilesAreV2(files);
    RecordsKeepLength(files);
    RecordsKeepLength(later);
    AnchorHoldsIff(p, files, later, createdAt);
    if Clean(later) {
      CleanFilesAreV2(later);
    }
  }

  // ---------------------------------------------------------------- what an anchor shows

  // The objects an anchor covers are the numbered v2 records, wherever they stand.
  lemma {:induction false} V2LinesAre(lines: seq<Line>)
    ensures V2Lines(lines).Some? <==> forall line :: line in lines ==> !Raising(line)
    ensures V2Lines(lines).Some? ==>
              forall d :: d in V2Lines(lines).value <==> d in LineObjects(lines) && IsV2(d) && SeqNo(d).Some?
  {
    if lines != [] {
      V2LinesAre(lines[1..]);
      assert lines[0] in lines && forall line :: line in lines <==> line == lines[0] || line in lines[1..];
    }
  }

  ghost predicate RaisesNowhere(f: LogFile) { f.Readable? ==> forall line :: line in f.lines ==> !Raising(line) }

  lemma {:induction false} V2FilesAre(files: seq<LogFile>)
    ensures V2Files(files).Some? <==> forall f :: f in files ==> RaisesNowhere(f)
    ensures V2Files(files).Some? ==>
              forall d :: d in V2Files(files).value <==> d in Objects(files) && IsV2(d) && SeqNo(d).Some?
  {
    if files != [] {
      V2FilesAre(files[1..]);
      assert files[0] in files && forall f :: f in files <==> f == files[0] || f in files[1..];
      if files[0].Readable? { V2LinesAre(files[0].lines); }
    }
  }

  // A record with the highest number, and its HMAC.
  ghost predicate IsLast(d: Dict, found: seq<Dict>, number: int, hmac: string) {
    && d in found && Num(d) == number && (forall e :: e in found ==> Num(e) <= number)
    && (HmacIsText(d) ==> d["chain_hmac"] == JStr(hmac))
  }

  ghost predicate ShowsLast(found: seq<Dict>, number: int, hmac: string) {
    if found == [] then number == 0 && hmac == "" else exists d :: IsLast(d, found, number, hmac)
  }

  lemma SortedShowsLast(p: Platform, found: seq<Dict>)
    ensures var records := SortBySeq(found);
            ShowsLast(found, if records == [] then 0 else Num(records[|records| - 1]), HeadText(p, records))
  {
    SortedLast(found);
    if found != [] {
      var last := SortBySeq(found)[|found| - 1];
      assert IsLast(last, found, Num(last), HeadText(p, SortBySeq(found)));
    }
  }

  ghost predicate Shows(a: Anchor, found: seq<Dict>) {
    a.recordCount == |found| && ShowsLast(found, a.lastSequenceNo, a.headChainHmac)
  }

  lemma SortedShows(p: Platform, found: seq<Dict>, lines: nat, createdAt: string)
    ensures Shows(AnchorOf(p, SortBySeq(found), lines, createdAt), found)
  {
    SortedLast(found);
    SortedShowsLast(p, found);
  }

  // An anchor counts the numbered v2 records and shows the highest number among them and the HMAC of a record that
  // has it.
  lemma AnchorShows(p: Platform, files: seq<LogFile>, createdAt: string)
    requires ComputeAnchor(p, files, createdAt).Some?
    ensures Shows(ComputeAnchor(p, files, createdAt).value, V2Files(files).value)
  {
    SortedShows(p, V2Files(files).value, Nonempty(files), createdAt);
  }

  lemma SortedLast(found: seq<Dict>)
    ensures |SortBySeq(found)| == |found|
    ensures found != [] ==>
              var last := SortBySeq(found)[|found| - 1];
              last in found && forall d :: d in found ==> Num(d) <= Num(last)
  {
    var records := SortBySeq(found);
    SortSorts(found);
    assert |records| == |multiset(records)| == |found|;
    if records != [] {
      LastGreatest(records);
      forall d ensures d in records <==> d in found {
        assert d in records <==> d in multiset(records);
        assert d in found <==> d in multiset(found);
      }
      assert records[|records| - 1] in records;
    }
  }

  // Of a log the auditor accepts the anchor shows as many records and lines as its last number says, and the HMAC the
  // chain ends in.
  lemma AnchorOfAccepted(p: Platform, files: seq<LogFile>, createdAt: string)
    requires Accepted(Verified(p, files))
    requires Records(files) == [] || HmacIsText(Records(files)[|Records(files)| - 1])
    ensures var n := |Records(files)|;
            ComputeAnchor(p, files, createdAt) ==
            Some(Anchor(n, n, n, Head(p, Records(files)), p.sha256(Joined(Records(files))), createdAt))
  {
    AcceptedIsOrdered(p, files);
    LastOfChain(p, Records(files));
  }

  lemma AcceptedIsOrdered(p: Platform, files: seq<LogFile>)
    requires Accepted(Verified(p, files))
    ensures Chain(p, Records(files)) && OrderedV2(files) == Some(Records(files)) && Nonempty(files) == |Records(files)|
  {
    AcceptedIff(p, files);
    CleanFilesAreV2(files);
    RecordsKeepLength(files);
  }

  lemma LastOfChain(p: Platform, records: seq<Dict>)
    requires Chain(p, records) && (records == [] || HmacIsText(records[|records| - 1]))
    ensures (if records == [] then 0 else Num(records[|records| - 1])) == |records|
    ensures HeadText(p, records) == Head(p, records)
  {
    if records != [] {
      assert ChainAt(p, records, |records| - 1);
    }
  }

  // Why an anchor taken from some files fails on later ones: the records differ, or only the number of lines does.
  lemma AnchorReasons(p: Platform, files: seq<LogFile>, later: seq<LogFile>, createdAt: string)
    requires Injective(p.sha256) && ComputeAnchor(p, files, createdAt).Some?
    ensures var v := VerifyAnchor(p, later, ComputeAnchor(p, files, createdAt).value);
            if OrderedV2(later).None? then v == AnchorRaised
            else if OrderedV2(later) != OrderedV2(files) then v == AnchorVerdict(false, Some(ContentDigestMismatch))
            else if Nonempty(later) != Nonempty(files) then v == AnchorVerdict(false, Some(LineCountMismatch))
            else v == AnchorVerdict(true, None)
  {
    if OrderedV2(later).Some? {
      var a, b := OrderedV2(files).value, OrderedV2(later).value;
      if ContentDigest(p, a) == ContentDigest(p, b) { JoinedInjective(a, b); }
    }
  }

  // Lines and files count one by one: a line unless it is blank, broken or not.
  lemma {:induction false} LinesCount(a: seq<Line>, b: seq<Line>)
    ensures NonemptyInLines(a + b) == NonemptyInLines(a) + NonemptyInLines(b)
    ensures forall line: Line :: NonemptyInLines([line]) == if line.Blank? then 0 else 1
  {
    forall line: Line ensures NonemptyInLines([line]) == if line.Blank? then 0 else 1 {
      assert [line][1..] == [];
    }
    if a == [] {
      assert a + b == b;
    } else {
      assert (a + b)[1..] == a[1..] + b;
      LinesCount(a[1..], b);
    }
  }

  lemma {:induction false} FilesCount(a: seq<LogFile>, b: seq<LogFile>)
    ensures Nonempty(a + b) == Nonempty(a) + Nonempty(b)
    ensures forall f: LogFile :: Nonempty([f]) == if f.Missing? then 0 else NonemptyInLines(f.lines)
  {
    forall f: LogFile ensures Nonempty([f]) == if f.Missing? then 0 else NonemptyInLines(f.lines) {
      assert [f][1..] == [];
    }
    if a == [] {
      assert a + b == b;
    } else {
      assert (a + b)[1..] == a[1..] + b;
      FilesCount(a[1..], b);
    }
  }
}
