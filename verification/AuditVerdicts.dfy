// What a verdict of the auditor reports: where reading stopped, which numbers are missing, and which record breaks
// the chain.
module AuditVerdicts {
  import opened Wrappers
  import opened Sequences
  import opened CanonicalJson
  import opened AuditChain
  import opened AuditEvidence

  // ---------------------------------------------------------------- reading stops

  ghost predicate CleanLines(lines: seq<Line>) { forall line :: line in lines ==> CleanLine(line) }

  // Line j of file i is the first one that is no v2 record and not blank.
  ghost predicate FirstUnclean(files: seq<LogFile>, i: nat, j: nat) {
    && i < |files| && Clean(files[..i])
    && files[i].Readable? && j < |files[i].lines| && CleanLines(files[i].lines[..j]) && !CleanLine(files[i].lines[j])
  }

  // File i is the first that cannot be opened, and no line before it is unclean.
  ghost predicate FirstMissing(files: seq<LogFile>, i: nat) {
    i < |files| && Clean(files[..i]) && files[i].Missing?
  }

  // What an unclean line makes of the reading, `count` records behind it.
  function AtLine(line: Line, count: nat): ReadResult
    requires !CleanLine(line)
  {
    match line
    case Malformed => Stopped(MalformedJson, count)
    case Parsed(v) =>
      if !v.JObj? then ReadRaised
      else if IsV2(v.fields) then Stopped(MissingSequenceNo, count)
      else Stopped(UnsupportedSchemaVersion, count)
    case _ => ReadRaised
  }

  lemma {:induction false} ReadLinesStops(lines: seq<Line>, acc: seq<Dict>, j: nat)
    requires j < |lines| && CleanLines(lines[..j]) && !CleanLine(lines[j])
    ensures ReadLines(lines, acc) == AtLine(lines[j], |acc| + |LineObjects(lines[..j])|)
  {
    if j > 0 {
      assert lines[..j][0] == lines[0] && lines[..j][1..] == lines[1..][..j - 1];
      assert lines[0] in lines[..j];
      forall line | line in lines[1..][..j - 1] ensures CleanLine(line) {
        assert line in lines[..j];
      }
      var acc' := if lines[0].Parsed? then acc + [lines[0].value.fields] else acc;
      ReadLinesStops(lines[1..], acc', j - 1);
    }
  }

  lemma ReadFilesStep(files: seq<LogFile>, acc: seq<Dict>)
    requires files != [] && files[0].Readable? && CleanLines(files[0].lines)
    ensures ReadFiles(files, acc) == ReadFiles(files[1..], acc + LineObjects(files[0].lines))
  {
    ReadLinesCollects(files[0].lines, acc);
  }

  lemma CleanStep(files: seq<LogFile>, i: nat)
    requires 0 < i <= |files| && Clean(files[..i])
    ensures files[0].Readable? && CleanLines(files[0].lines) && Clean(files[1..][..i - 1])
    ensures Objects(files[..i]) == LineObjects(files[0].lines) + Objects(files[1..][..i - 1])
    ensures files[1..][i - 1..] == files[i..]
  {
    assert files[..i][0] == files[0] && files[..i][1..] == files[1..][..i - 1];
    assert files[0] in files[..i];
    forall f | f in files[1..][..i - 1] ensures f in files[..i] {}
  }

  lemma {:induction false} ReadFilesSkips(files: seq<LogFile>, acc: seq<Dict>, i: nat)
    requires i <= |files| && Clean(files[..i])
    ensures ReadFiles(files, acc) == ReadFiles(files[i..], acc + Objects(files[..i]))
  {
    if i == 0 {
      assert files[0..] == files;
      Neutral(acc);
    } else {
      CleanStep(files, i);
      ReadFilesStep(files, acc);
      var first := LineObjects(files[0].lines);
      Associate(acc, first, Objects(files[1..][..i - 1]));
      ReadFilesSkips(files[1..], acc + first, i - 1);
    }
  }

  // Reading stopped at the line for what is wrong with it, n records behind it.
  predicate ReportsLine(v: Verdict, line: Line, n: nat) {
    && (line.Undecodable? || line.Unparsable? || (line.Parsed? && !line.value.JObj?) ==> v == Raised)
    && (line.Malformed? ==> v == Verdict(false, n, None, Some(MalformedJson), []))
    && (line.Parsed? && line.value.JObj? && !IsV2(line.value.fields) ==>
          v == Verdict(false, n, None, Some(UnsupportedSchemaVersion), []))
    && (line.Parsed? && line.value.JObj? && IsV2(line.value.fields) ==>
          v == Verdict(false, n, None, Some(MissingSequenceNo), []))
  }

  // How many records stand before line j of file i.
  function Before(files: seq<LogFile>, i: nat, j: nat): nat
    requires i < |files| && files[i].Readable? && j < |files[i].lines|
  {
    |Objects(files[..i])| + |LineObjects(files[i].lines[..j])|
  }

  function OfReading(r: ReadResult): Verdict
    requires !r.Collected?
  {
    match r case ReadRaised => Raised case Stopped(reason, count) => Verdict(false, count, None, Some(reason), [])
  }

  lemma LineIsReported(line: Line, n: nat)
    requires !CleanLine(line)
    ensures ReportsLine(OfReading(AtLine(line, n)), line, n)
  {
  }

  lemma ReadingDecides(p: Platform, files: seq<LogFile>, r: ReadResult)
    requires ReadFiles(files, []) == r && !r.Collected?
    ensures Verified(p, files) == OfReading(r)
  {
  }

  predicate ReportsFile(v: Verdict, files: seq<LogFile>, i: nat)
    requires i < |files|
  {
    v == Verdict(false, |Objects(files[..i])|, None, Some(FileReadError), [])
  }

  lemma ReadsUpTo(files: seq<LogFile>, i: nat)
    requires i < |files| && Clean(files[..i])
    ensures ReadFiles(files, []) == ReadFiles(files[i..], Objects(files[..i])) && files[i..][0] == files[i]
  {
    ReadFilesSkips(files, [], i);
    Neutral(Objects(files[..i]));
  }

  lemma FileStops(files: seq<LogFile>, acc: seq<Dict>, j: nat)
    requires files != [] && files[0].Readable? && j < |files[0].lines|
    requires CleanLines(files[0].lines[..j]) && !CleanLine(files[0].lines[j])
    ensures ReadFiles(files, acc) == AtLine(files[0].lines[j], |acc| + |LineObjects(files[0].lines[..j])|)
  {
    ReadLinesStops(files[0].lines, acc, j);
  }

  lemma StopsAtLine(p: Platform, files: seq<LogFile>, i: nat, j: nat)
    requires FirstUnclean(files, i, j)
    ensures ReportsLine(Verified(p, files), files[i].lines[j], Before(files, i, j))
  {
    ReadsUpTo(files, i);
    FileStops(files[i..], Objects(files[..i]), j);
    ReadingDecides(p, files, AtLine(files[i].lines[j], Before(files, i, j)));
    LineIsReported(files[i].lines[j], Before(files, i, j));
  }

  lemma StopsAtFile(p: Platform, files: seq<LogFile>, i: nat)
    requires FirstMissing(files, i)
    ensures ReportsFile(Verified(p, files), files, i)
  {
    ReadsUpTo(files, i);
  }

  lemma {:induction false} FirstUncleanLine(lines: seq<Line>) returns (j: nat)
    requires !CleanLines(lines)
    ensures j < |lines| && CleanLines(lines[..j]) && !CleanLine(lines[j])
  {
    if !CleanLine(lines[0]) {
      j := 0;
    } else {
      assert forall line :: line in lines <==> line == lines[0] || line in lines[1..];
      var k := FirstUncleanLine(lines[1..]);
      j := k + 1;
      assert lines[..j] == [lines[0]] + lines[1..][..k];
    }
  }

  ghost predicate HasUnclean(files: seq<LogFile>) { exists i: nat, j: nat :: FirstUnclean(files, i, j) }

  ghost predicate HasMissing(files: seq<LogFile>) { exists i: nat :: FirstMissing(files, i) }

  lemma UncleanLater(files: seq<LogFile>)
    requires files != [] && files[0].Readable? && CleanLines(files[0].lines) && HasUnclean(files[1..])
    ensures HasUnclean(files)
  {
    var i: nat, j: nat :| FirstUnclean(files[1..], i, j);
    CleanBefore(files, i);
    assert FirstUnclean(files, i + 1, j);
  }

  lemma MissingLater(files: seq<LogFile>)
    requires files != [] && files[0].Readable? && CleanLines(files[0].lines) && HasMissing(files[1..])
    ensures HasMissing(files)
  {
    var i: nat :| FirstMissing(files[1..], i);
    CleanBefore(files, i);
    assert FirstMissing(files, i + 1);
  }

  // One of the two is found in files that are not clean.
  lemma {:induction false} UncleanHasFirst(files: seq<LogFile>)
    requires !Clean(files)
    ensures HasUnclean(files) || HasMissing(files)
  {
    assert forall g :: g in files <==> g == files[0] || g in files[1..];
    if files[0].Missing? {
      assert FirstMissing(files, 0);
    } else if !CleanLines(files[0].lines) {
      var j := FirstUncleanLine(files[0].lines);
      assert FirstUnclean(files, 0, j);
    } else {
      UncleanHasFirst(files[1..]);
      if HasUnclean(files[1..]) { UncleanLater(files); } else { MissingLater(files); }
    }
  }

  lemma CleanBefore(files: seq<LogFile>, i: nat)
    requires files != [] && files[0].Readable? && CleanLines(files[0].lines)
    requires i < |files[1..]| && Clean(files[1..][..i])
    ensures Clean(files[..i + 1])
  {
    assert files[..i + 1] == [files[0]] + files[1..][..i];
  }

  // ---------------------------------------------------------------- numbers

  lemma {:induction false} AbsentLists(present: set<int>, upTo: int)
    ensures var missing := Absent(present, upTo);
            && (forall i, j :: 0 <= i < j < |missing| ==> missing[i] < missing[j])
            && (forall n :: n in missing <==> 1 <= n <= upTo && n !in present)
    decreases upTo
  {
    if upTo >= 1 {
      AbsentLists(present, upTo - 1);
      var before := Absent(present, upTo - 1);
      assert forall i :: 0 <= i < |before| ==> before[i] in before;
    }
  }

  lemma {:induction false} FirstGapLeast(s: seq<Dict>, k: nat)
    requires 1 <= k <= |s| + 1 && FirstGap(s, k).Some?
    ensures var gap := FirstGap(s, k).value;
            k <= gap <= |s| && Num(s[gap - 1]) != gap && forall i :: k - 1 <= i < gap - 1 ==> Num(s[i]) == i + 1
    decreases |s| - k
  {
    if Num(s[k - 1]) == k { FirstGapLeast(s, k + 1); }
  }

  lemma CleanIsJudged(p: Platform, files: seq<LogFile>)
    requires Clean(files)
    ensures Verified(p, files) == Judge(p, Records(files))
  {
    ReadFilesCollects(files, []);
    assert [] + Objects(files) == Objects(files);
  }

  lemma RecordsInOrder(files: seq<LogFile>)
    ensures |Records(files)| == |Objects(files)| && Ascending(Records(files))
    ensures forall d :: d in Records(files) <==> d in Objects(files)
  {
    SortSorts(Objects(files));
    assert |Records(files)| == |multiset(Records(files))| == |Objects(files)|;
    forall d ensures d in Records(files) <==> d in Objects(files) {
      assert d in Records(files) <==> d in multiset(Records(files));
      assert d in Objects(files) <==> d in multiset(Objects(files));
    }
  }

  // Some record has the number.
  ghost predicate Shown(files: seq<LogFile>, n: int) { exists d :: d in Objects(files) && Num(d) == n }

  ghost predicate Least(files: seq<LogFile>, n: int) {
    Shown(files, n) && forall d :: d in Objects(files) ==> n <= Num(d)
  }

  ghost predicate Highest(files: seq<LogFile>, n: int) {
    Shown(files, n) && forall d :: d in Objects(files) ==> Num(d) <= n
  }

  predicate ReportsStart(v: Verdict, files: seq<LogFile>, least: int) {
    v == Verdict(false, |Objects(files)|, Some(least), Some(ChainDoesNotStartAtOne), [])
  }

  // Clean files whose least number is not 1 are reported with that number.
  lemma StartVerdict(p: Platform, files: seq<LogFile>, least: int)
    requires Clean(files) && Least(files, least) && least != 1
    ensures ReportsStart(Verified(p, files), files, least)
  {
    CleanIsJudged(p, files);
    StartsAtLeast(files, least);
    RecordsInOrder(files);
  }

  lemma StartsAtLeast(files: seq<LogFile>, least: int)
    requires Least(files, least)
    ensures Records(files) != [] && Num(Records(files)[0]) == least
  {
    RecordsInOrder(files);
    var s := Records(files);
    var d :| d in Objects(files) && Num(d) == least;
    assert d in s;
    HeadLeast(s);
    assert s[0] in s;
    assert s[0] in Objects(files);
  }

  lemma HighestIsLast(files: seq<LogFile>, highest: int)
    requires Highest(files, highest)
    ensures Records(files) != [] && Num(Records(files)[|Records(files)| - 1]) == highest
  {
    RecordsInOrder(files);
    var s := Records(files);
    var d :| d in Objects(files) && Num(d) == highest;
    assert d in s;
    LastGreatest(s);
    assert s[|s| - 1] in s;
    assert s[|s| - 1] in Objects(files);
  }

  // The numbers count up from 1 to the gap, where another number stands.
  ghost predicate FirstOutOfPlace(s: seq<Dict>, gap: nat) {
    1 <= gap <= |s| && Num(s[gap - 1]) != gap && forall k :: 0 <= k < gap - 1 ==> Num(s[k]) == k + 1
  }

  lemma GapFound(s: seq<Dict>, gap: nat)
    requires FirstOutOfPlace(s, gap)
    ensures FirstGap(s, 1) == Some(gap)
  {
    FirstGapNone(s, 1);
    assert Num(s[gap - 1]) != (gap - 1) + 1;
    FirstGapLeast(s, 1);
  }

  // The report names the place of the gap, and exactly the numbers up to the highest that no record has, in
  // ascending order.
  ghost predicate ReportsGap(v: Verdict, files: seq<LogFile>, gap: nat, highest: int) {
    && v.Verdict? && !v.ok && v.recordsChecked == |Objects(files)|
    && v.breakAt == Some(gap) && v.reason == Some(SequenceGap)
    && (forall i, j :: 0 <= i < j < |v.missing| ==> v.missing[i] < v.missing[j])
    && (forall n :: n in v.missing <==> 1 <= n <= highest && !Shown(files, n))
  }

  lemma NumbersShown(files: seq<LogFile>, n: int)
    ensures n in Numbers(Records(files)) <==> Shown(files, n)
  {
    RecordsInOrder(files);
    if n in Numbers(Records(files)) {
      var d :| d in Records(files) && Num(d) == n;
      assert d in Objects(files);
    }
    if Shown(files, n) {
      var d :| d in Objects(files) && Num(d) == n;
      assert d in Records(files);
    }
  }

  // Clean files that start at 1 but whose sorted records do not count on.
  lemma GapVerdict(p: Platform, files: seq<LogFile>, gap: nat, highest: int)
    requires Clean(files) && Least(files, 1) && Highest(files, highest) && FirstOutOfPlace(Records(files), gap)
    ensures ReportsGap(Verified(p, files), files, gap, highest)
  {
    CleanIsJudged(p, files);
    RecordsInOrder(files);
    StartsAtLeast(files, 1);
    GapFound(Records(files), gap);
    HighestIsLast(files, highest);
    AbsentLists(Numbers(Records(files)), highest);
    forall n ensures n in Numbers(Records(files)) <==> Shown(files, n) {
      NumbersShown(files, n);
    }
  }

  // ---------------------------------------------------------------- HMACs

  // The record behind the first k, in sequence order, is the first whose stored HMAC is not the one over its
  // predecessor's stored HMAC and its own content.
  ghost predicate FirstBroken(p: Platform, s: seq<Dict>, k: nat) {
    k < |s| && !LinkedAt(p, s, "", k) && forall i :: 0 <= i < k ==> LinkedAt(p, s, "", i)
  }

  lemma {:induction false} FaultAt(p: Platform, s: seq<Dict>, prev: string, k: nat)
    requires k < |s| && !LinkedAt(p, s, prev, k) && forall i :: 0 <= i < k ==> LinkedAt(p, s, prev, i)
    ensures FirstFault(p, s, prev) == if IsAscii(StoredHmac(p, s[k])) then MismatchAt(Num(s[k])) else Incomparable
  {
    if k > 0 {
      var next := StoredHmac(p, s[0]);
      assert LinkedAt(p, s, prev, 0);
      LinkedTail(p, s, prev, k);
      FaultAt(p, s[1..], next, k - 1);
    }
  }

  lemma LinkedTail(p: Platform, s: seq<Dict>, prev: string, k: nat)
    requires 0 < k < |s| && !LinkedAt(p, s, prev, k) && forall i :: 0 <= i < k ==> LinkedAt(p, s, prev, i)
    ensures var next := StoredHmac(p, s[0]);
            && !LinkedAt(p, s[1..], next, k - 1)
            && forall i :: 0 <= i < k - 1 ==> LinkedAt(p, s[1..], next, i)
  {
    forall i | 0 <= i < k - 1 ensures LinkedAt(p, s[1..], StoredHmac(p, s[0]), i) {
      assert LinkedAt(p, s, prev, i + 1);
    }
  }

  // The report names the number of that record; if what it stores is not ASCII the comparison raises.
  predicate ReportsBreak(p: Platform, v: Verdict, files: seq<LogFile>, k: nat)
    requires k < |Records(files)|
  {
    if IsAscii(StoredHmac(p, Records(files)[k])) then
      v == Verdict(false, |Objects(files)|, Some(k + 1), Some(HmacMismatch), [])
    else v == Raised
  }

  // Clean, densely numbered files in which some HMAC does not match.
  lemma HmacVerdict(p: Platform, files: seq<LogFile>, k: nat)
    requires Clean(files) && Consecutive(Records(files), 1) && FirstBroken(p, Records(files), k)
    ensures ReportsBreak(p, Verified(p, files), files, k)
  {
    CleanIsJudged(p, files);
    RecordsInOrder(files);
    NumberedIff(Records(files));
    FaultAt(p, Records(files), "", k);
    assert Num(Records(files)[k]) == 1 + k;
  }

  // ---------------------------------------------------------------- every case

  lemma ExtremesExist(files: seq<LogFile>) returns (least: int, highest: int)
    requires Objects(files) != []
    ensures Least(files, least) && Highest(files, highest)
  {
    RecordsInOrder(files);
    var s := Records(files);
    HeadLeast(s);
    LastGreatest(s);
    least, highest := Num(s[0]), Num(s[|s| - 1]);
    assert s[0] in s && s[|s| - 1] in s;
    assert s[0] in Objects(files) && s[|s| - 1] in Objects(files);
  }

  lemma GapExists(s: seq<Dict>) returns (gap: nat)
    requires !Consecutive(s, 1)
    ensures FirstOutOfPlace(s, gap)
  {
    FirstGapNone(s, 1);
    FirstGapLeast(s, 1);
    gap := FirstGap(s, 1).value;
  }

  lemma {:induction false} BreakExists(p: Platform, s: seq<Dict>, n: nat) returns (k: nat)
    requires n <= |s| && (forall i :: 0 <= i < n ==> LinkedAt(p, s, "", i)) && !Linked(p, s, "")
    ensures FirstBroken(p, s, k)
    decreases |s| - n
  {
    if !LinkedAt(p, s, "", n) { k := n; } else { k := BreakExists(p, s, n + 1); }
  }

  ghost predicate StoppedReading(v: Verdict, files: seq<LogFile>) {
    || (exists i: nat, j: nat :: FirstUnclean(files, i, j) && ReportsLine(v, files[i].lines[j], Before(files, i, j)))
    || (exists i: nat :: FirstMissing(files, i) && ReportsFile(v, files, i))
  }

  ghost predicate WrongStart(v: Verdict, files: seq<LogFile>) {
    exists least :: Least(files, least) && least != 1 && ReportsStart(v, files, least)
  }

  ghost predicate WrongNumbers(v: Verdict, files: seq<LogFile>) {
    && Least(files, 1)
    && exists gap: nat, highest ::
         Highest(files, highest) && FirstOutOfPlace(Records(files), gap) && ReportsGap(v, files, gap, highest)
  }

  ghost predicate WrongHmac(p: Platform, v: Verdict, files: seq<LogFile>) {
    && Consecutive(Records(files), 1)
    && exists k: nat :: FirstBroken(p, Records(files), k) && ReportsBreak(p, v, files, k)
  }

  lemma UncleanExplained(p: Platform, files: seq<LogFile>)
    requires !Clean(files)
    ensures StoppedReading(Verified(p, files), files)
  {
    UncleanHasFirst(files);
    if HasUnclean(files) {
      var i: nat, j: nat :| FirstUnclean(files, i, j);
      StopsAtLine(p, files, i, j);
    } else {
      var i: nat :| FirstMissing(files, i);
      StopsAtFile(p, files, i);
    }
  }

  lemma MisnumberedExplained(p: Platform, files: seq<LogFile>)
    requires Clean(files) && !Consecutive(Records(files), 1)
    ensures WrongStart(Verified(p, files), files) || WrongNumbers(Verified(p, files), files)
  {
    RecordsInOrder(files);
    var least, highest := ExtremesExist(files);
    if least != 1 {
      StartVerdict(p, files, least);
    } else {
      var gap := GapExists(Records(files));
      GapVerdict(p, files, gap, highest);
    }
  }

  lemma UnlinkedExplained(p: Platform, files: seq<LogFile>)
    requires Clean(files) && Consecutive(Records(files), 1) && !Linked(p, Records(files), "")
    ensures WrongHmac(p, Verified(p, files), files)
  {
    var k := BreakExists(p, Records(files), 0);
    HmacVerdict(p, files, k);
  }

  // What every verdict reports, with no reference to how it is found: an accepted log is a chain; any other has an
  // unclean line or a missing file behind clean ones only, or a least number that is not 1, or a first number out of
  // place, or a first record that does not carry the HMAC due, and the verdict names exactly that.
  lemma VerdictExplained(p: Platform, files: seq<LogFile>)
    ensures var v := Verified(p, files);
            if !Clean(files) then StoppedReading(v, files)
            else if !Consecutive(Records(files), 1) then WrongStart(v, files) || WrongNumbers(v, files)
            else if !Linked(p, Records(files), "") then WrongHmac(p, v, files)
            else v == Verdict(true, |Objects(files)|, None, None, [])
  {
    if !Clean(files) { UncleanExplained(p, files); }
    else if !Consecutive(Records(files), 1) { MisnumberedExplained(p, files); }
    else if !Linked(p, Records(files), "") { UnlinkedExplained(p, files); }
    else {
      AcceptedIff(p, files);
      SortedAreClean(files);
      ChainIsLinked(p, Records(files));
    }
  }
}
