// The single-writer emitter: stamping, rotation, failed writes, and recovery after a restart.
module AuditEmitter {
  import opened Wrappers
  import opened CanonicalJson
  import opened AuditChain
  import opened AuditEvidence

  // ---------------------------------------------------------------- the record of an event

  // What a caller passes to `emit`, with the identifier and time stamped on it.
  datatype Event = Event(
    eventType: string, eventId: string, timestamp: string,
    user: Option<string>, session: Option<string>, caller: Option<string>,
    durationMs: int, outcome: string,
    journeyPhase: Option<string>, promptTemplateId: Option<string>, aiProvider: Option<string>,
    tokensIn: Option<int>, tokensOut: Option<int>, errorClass: Option<string>,
    payload: Dict)

  // What the surrounding call set for all events of its scope.
  datatype Context = Context(user: Option<string>, session: Option<string>, caller: Option<string>,
      phase: Option<string>)

  // Python's `a or b`: an empty string gives way like a missing one.
  function Or(a: Option<string>, b: Option<string>): Option<string> {
    if a.Some? && a.value != "" then a else b
  }

  function Hashed(p: Platform, v: Option<string>): Json {
    match v case None => JNull case Some(s) => JStr(p.hashId(s))
  }

  function BaseRecord(p: Platform, ctx: Context, e: Event): (d: Dict)
    ensures IsV2(d)
  {
    map["schema_version" := JStr("v2"), "event_id" := JStr(e.eventId), "event_type" := JStr(e.eventType),
        "timestamp" := JStr(e.timestamp), "user_opaque_id" := Hashed(p, Or(e.user, ctx.user)),
        "session_opaque_id" := Hashed(p, Or(e.session, ctx.session)),
        "caller" := JStr(OrEmpty(Or(Or(e.caller, ctx.caller), Some("system")))),
        "duration_ms" := JInt(e.durationMs), "outcome" := JStr(e.outcome)]
  }

  // An optional field and its value, if there is one.
  datatype Field = Field(key: string, value: Option<Json>)

  function TextField(key: string, v: Option<string>): Field {
    Field(key, match v case None => None case Some(s) => Some(JStr(s)))
  }

  function IntField(key: string, v: Option<int>): Field {
    Field(key, match v case None => None case Some(n) => Some(JInt(n)))
  }

  function Optional(ctx: Context, e: Event): seq<Field> {
    [TextField("journey_phase", if e.journeyPhase.Some? then e.journeyPhase else ctx.phase),
     TextField("prompt_template_id", e.promptTemplateId),
     TextField("ai_provider", e.aiProvider),
     IntField("tokens_in", e.tokensIn),
     IntField("tokens_out", e.tokensOut),
     TextField("error_class", e.errorClass),
     Field("event_payload", if e.payload == map[] then None else Some(JObj(e.payload)))]
  }

  function WithAll(d: Dict, fields: seq<Field>): Dict
    decreases |fields|
  {
    if fields == [] then d
    else WithAll(match fields[0].value case None => d case Some(v) => d[fields[0].key := v], fields[1..])
  }

  lemma {:induction false} WithAllKeeps(d: Dict, fields: seq<Field>, key: string)
    requires forall i :: 0 <= i < |fields| ==> fields[i].key != key
    ensures key in WithAll(d, fields) <==> key in d
    ensures key in d ==> WithAll(d, fields)[key] == d[key]
    decreases |fields|
  {
    if fields != [] {
      WithAllKeeps(match fields[0].value case None => d case Some(v) => d[fields[0].key := v], fields[1..], key);
    }
  }

  function RecordOf(p: Platform, ctx: Context, e: Event): (d: Dict)
    ensures IsV2(d)
  {
    WithAllKeeps(BaseRecord(p, ctx, e), Optional(ctx, e), "schema_version");
    WithAll(BaseRecord(p, ctx, e), Optional(ctx, e))
  }

  // ---------------------------------------------------------------- state

  datatype State = State(
    current: Option<seq<Line>>, rotated: seq<LogFile>,
    loaded: bool, lastSeq: int, lastHmac: string)

  const FRESH := State(None, [], false, 0, "")

  // What the surroundings answer during one write: the rotated files in directory order, the size of the
  // current file if `stat` succeeds, whether the rename and the append succeed, and whether the record can
  // be written as JSON at all.
  datatype Io = Io(listing: seq<LogFile>, size: Option<int>, renameOk: bool, writeOk: bool, encodes: bool)

  // The record reaches the disk.
  predicate Lands(io: Io) { io.writeOk && io.encodes }

  function CurrentFile(s: State): seq<LogFile> {
    if s.current.Some? then [Readable(s.current.value)] else []
  }

  // The paths an auditor is given.
  function DiskFiles(s: State): seq<LogFile> { s.rotated + CurrentFile(s) }

  datatype Recovered = ScanRaised | Found(number: int, hmac: string)

  function ScanLines(p: Platform, lines: seq<Line>, number: int, hmac: string): Recovered {
    if lines == [] then Found(number, hmac)
    else match lines[0]
      case Parsed(v) =>
        if !v.JObj? then ScanRaised
        else if SeqNo(v.fields).Some? && Num(v.fields) > number then
          ScanLines(p, lines[1..], Num(v.fields), StoredHmac(p, v.fields))
        else ScanLines(p, lines[1..], number, hmac)
      case Undecodable => ScanRaised
      case Unparsable => ScanRaised
      case _ => ScanLines(p, lines[1..], number, hmac)
  }

  function ScanFiles(p: Platform, files: seq<LogFile>, number: int, hmac: string): Recovered {
    if files == [] then Found(number, hmac)
    else match files[0]
      case Missing => ScanFiles(p, files[1..], number, hmac)
      case Readable(lines) =>
        match ScanLines(p, lines, number, hmac)
        case ScanRaised => ScanRaised
        case Found(n, h) => ScanFiles(p, files[1..], n, h)
  }

  function Stamp(p: Platform, number: int, prev: string, record: Dict): Dict {
    var numbered := record["sequence_no" := JInt(number)];
    numbered["chain_hmac" := JStr(Link(p, prev, numbered))]
  }

  function Rotated(rotateBytes: int, s: State, io: Io): State {
    if s.current.None? || io.size.None? || io.size.value < rotateBytes || !io.renameOk then s
    else s.(current := None, rotated := s.rotated + [Readable(s.current.value)])
  }

  function Appended(s: State, d: Dict): State {
    var lines := if s.current.Some? then s.current.value else [];
    s.(current := Some(lines + [Parsed(JObj(d))]))
  }

  function Loaded(p: Platform, s: State, io: Io): Option<State> {
    if s.loaded then Some(s)
    else match ScanFiles(p, CurrentFile(s) + io.listing, 0, "")
      case ScanRaised => None
      case Found(n, h) => Some(s.(loaded := true, lastSeq := n, lastHmac := h))
  }

  // Whether a write raises into its caller.
  predicate Raises(p: Platform, s: State, io: Io) { Loaded(p, s, io).None? || !io.encodes }

  // The part of `_write` behind the recovery: encode, rotate, then append; the counters move only after the
  // append succeeded.
  function Stored(p: Platform, rotateBytes: int, s: State, record: Dict, io: Io): State {
    var r := if io.encodes then Rotated(rotateBytes, s, io) else s;
    if !Lands(io) then r
    else
      var d := Stamp(p, s.lastSeq + 1, s.lastHmac, record);
      Appended(r, d).(lastSeq := s.lastSeq + 1, lastHmac := Link(p, s.lastHmac, d))
  }

  // One call of `_write`. When recovery raises nothing changes.
  function Written(p: Platform, rotateBytes: int, s: State, record: Dict, io: Io): State {
    match Loaded(p, s, io)
    case None => s
    case Some(l) => Stored(p, rotateBytes, l, record, io)
  }

  // What a write adds to the record it is given.
  const STAMPS: set<string> := {"sequence_no", "chain_hmac"}

  // Two records with the same content.
  predicate SameContent(d: Dict, e: Dict) { d - STAMPS == e - STAMPS }

  lemma StampKeeps(p: Platform, number: int, prev: string, record: Dict)
    ensures SameContent(Stamp(p, number, prev, record), record)
  {
  }

  // The given record under a number and an HMAC.
  predicate Numbered(d: Dict, record: Dict, number: int, hmac: string) {
    && d - {"sequence_no", "chain_hmac"} == record - {"sequence_no", "chain_hmac"}
    && SeqNo(d) == Some(number)
    && "chain_hmac" in d && d["chain_hmac"] == JStr(hmac)
  }

  // The last line of the current file holds the given record under the counters' number and HMAC.
  predicate LastWritten(s: State, record: Dict) {
    && s.current.Some? && s.current.value != []
    && var line := s.current.value[|s.current.value| - 1];
       line.Parsed? && line.value.JObj? && Numbered(line.value.fields, record, s.lastSeq, s.lastHmac)
  }

  lemma StampNumbers(p: Platform, number: int, prev: string, record: Dict)
    ensures var d := Stamp(p, number, prev, record); Numbered(d, record, number, Link(p, prev, d))
  {
    var numbered := record["sequence_no" := JInt(number)];
    assert Body(Stamp(p, number, prev, record)) == Body(numbered);
    StampKeeps(p, number, prev, record);
  }

  lemma AppendWrites(s: State, d: Dict, record: Dict, number: int, hmac: string)
    requires Numbered(d, record, number, hmac)
    ensures LastWritten(Appended(s, d).(lastSeq := number, lastHmac := hmac), record)
  {
    var lines := if s.current.Some? then s.current.value else [];
    assert (lines + [Parsed(JObj(d))])[|lines|] == Parsed(JObj(d));
  }

  lemma StoreIs(p: Platform, rotateBytes: int, l: State, record: Dict, io: Io) returns (d: Dict, r: State)
    requires Lands(io)
    ensures d == Stamp(p, l.lastSeq + 1, l.lastHmac, record)
    ensures Stored(p, rotateBytes, l, record, io) ==
            Appended(r, d).(lastSeq := l.lastSeq + 1, lastHmac := Link(p, l.lastHmac, d))
  {
    d, r := Stamp(p, l.lastSeq + 1, l.lastHmac, record), Rotated(rotateBytes, l, io);
  }

  lemma StoreWrites(p: Platform, rotateBytes: int, l: State, record: Dict, io: Io, s: State)
    requires Lands(io) && s == Stored(p, rotateBytes, l, record, io)
    ensures LastWritten(s, record)
  {
    var d, r := StoreIs(p, rotateBytes, l, record, io);
    StampNumbers(p, l.lastSeq + 1, l.lastHmac, record);
    AppendWrites(r, d, record, l.lastSeq + 1, Link(p, l.lastHmac, d));
  }

  lemma StoreFails(p: Platform, rotateBytes: int, l: State, record: Dict, io: Io)
    requires !Lands(io)
    ensures DiskFiles(Stored(p, rotateBytes, l, record, io)) == DiskFiles(l)
  {
  }

  // The current file is full and can be moved.
  predicate Moves(rotateBytes: int, s: State, io: Io) {
    s.current.Some? && io.size.Some? && rotateBytes <= io.size.value && io.renameOk
  }

  // A full current file becomes the newest of the rotated ones before the record is written; no write moves any other.
  lemma WriteMoves(p: Platform, rotateBytes: int, s: State, record: Dict, io: Io)
    ensures var s' := Written(p, rotateBytes, s, record, io);
            if !Raises(p, s, io) && Moves(rotateBytes, s, io) then
              && s'.rotated == s.rotated + [Readable(s.current.value)]
              && (io.writeOk ==> s'.current.Some? && |s'.current.value| == 1) && (!io.writeOk ==> s'.current == None)
            else
              && s'.rotated == s.rotated
              && (!Raises(p, s, io) && io.writeOk ==>
                    && s'.current.Some? && s'.current.value != []
                    && s'.current.value[..|s'.current.value| - 1] ==
                       match s.current case None => [] case Some(lines) => lines)
  {
    if Loaded(p, s, io).Some? { StoreMoves(p, rotateBytes, Loaded(p, s, io).value, record, io); }
  }

  lemma StoreMoves(p: Platform, rotateBytes: int, l: State, record: Dict, io: Io)
    ensures var s' := Stored(p, rotateBytes, l, record, io);
            var r := if io.encodes && Moves(rotateBytes, l, io) then None else l.current;
            && s'.rotated == l.rotated
                + (if io.encodes && Moves(rotateBytes, l, io) then [Readable(l.current.value)] else [])
            && (!Lands(io) ==> s'.current == r)
            && (Lands(io) ==> exists line :: s'.current == Some((match r case None => [] case Some(ls) => ls) + [line]))
  {
    if Lands(io) {
      var d, r := StoreIs(p, rotateBytes, l, record, io);
    }
  }

  // A write that succeeds ends the current file with the record, every field of it; one that fails leaves the
  // files as they are, moved or not.
  lemma WriteAppends(p: Platform, rotateBytes: int, s: State, record: Dict, io: Io)
    ensures var s' := Written(p, rotateBytes, s, record, io);
            if !Raises(p, s, io) && io.writeOk then LastWritten(s', record) else DiskFiles(s') == DiskFiles(s)
  {
    if Loaded(p, s, io).Some? {
      var l := Loaded(p, s, io).value;
      assert DiskFiles(l) == DiskFiles(s);
      if Lands(io) {
        StoreWrites(p, rotateBytes, l, record, io, Written(p, rotateBytes, s, record, io));
      } else {
        StoreFails(p, rotateBytes, l, record, io);
      }
    }
  }

  class AuditLogEmitter {
    const platform: Platform
    const rotateBytes: int
    var current: Option<seq<Line>>
    var rotated: seq<LogFile>
    var chainLoaded: bool
    var lastSequenceNo: int
    var lastChainHmac: string

    ghost function Abstract(): State
      reads this
    {
      State(current, rotated, chainLoaded, lastSequenceNo, lastChainHmac)
    }

    constructor (platform: Platform, rotateBytes: int, current: Option<seq<Line>>, rotated: seq<LogFile>)
      ensures this.platform == platform && this.rotateBytes == rotateBytes
      ensures Abstract() == State(current, rotated, false, 0, "")
    {
      this.platform := platform;
      this.rotateBytes := rotateBytes;
      this.current := current;
      this.rotated := rotated;
      chainLoaded, lastSequenceNo, lastChainHmac := false, 0, "";
    }

    method LoadChainState(io: Io) returns (raised: bool)
      requires !chainLoaded
      modifies this
      ensures raised == Loaded(platform, old(Abstract()), io).None?
      ensures raised ==> Abstract() == old(Abstract())
      ensures !raised ==> Some(Abstract()) == Loaded(platform, old(Abstract()), io)
    {
      var lastSeq, lastHmac := 0, "";
      var candidates := (if current.Some? then [Readable(current.value)] else []) + io.listing;
      var i := 0;
      while i < |candidates|
        invariant 0 <= i <= |candidates|
        invariant ScanFiles(platform, candidates, 0, "") == ScanFiles(platform, candidates[i..], lastSeq, lastHmac)
        invariant Abstract() == old(Abstract())
      {
        if candidates[i].Readable? {
          var lines := candidates[i].lines;
          ghost var n, h := lastSeq, lastHmac;
          var j := 0;
          while j < |lines|
            invariant 0 <= j <= |lines|
            invariant ScanLines(platform, lines, n, h) == ScanLines(platform, lines[j..], lastSeq, lastHmac)
            invariant Abstract() == old(Abstract())
          {
            if StopsReader(lines[j]) {
              return true;
            }
            if lines[j].Parsed? {
              var obj := lines[j].value;
              if !obj.JObj? {
                return true;
              }
              if SeqNo(obj.fields).Some? && Num(obj.fields) > lastSeq {
                lastSeq, lastHmac := Num(obj.fields), StoredHmac(platform, obj.fields);
              }
            }
            assert lines[j..][1..] == lines[j + 1..];
            j := j + 1;
          }
        }
        assert candidates[i..][1..] == candidates[i + 1..];
        i := i + 1;
      }
      lastSequenceNo, lastChainHmac, chainLoaded := lastSeq, lastHmac, true;
      raised := false;
    }

    method RotateIfNeeded(io: Io)
      modifies this
      ensures Abstract() == Rotated(rotateBytes, old(Abstract()), io)
      ensures old(current).Some? && io.size.Some? && rotateBytes <= io.size.value && io.renameOk ==>
                current == None && rotated == old(rotated) + [Readable(old(current).value)]
      ensures old(current).None? || io.size.None? || io.size.value < rotateBytes || !io.renameOk ==>
                current == old(current) && rotated == old(rotated)
      ensures unchanged(`chainLoaded) && unchanged(`lastSequenceNo) && unchanged(`lastChainHmac)
    {
      if current.None? || io.size.None? || io.size.value < rotateBytes {
        return;
      }
      if io.renameOk {
        rotated := rotated + [Readable(current.value)];
        current := None;
      }
    }

    method Store(record: Dict, io: Io) returns (raised: bool)
      modifies this
      ensures raised == !io.encodes
      ensures Abstract() == Stored(platform, rotateBytes, old(Abstract()), record, io)
    {
      raised := !io.encodes;
      if raised {
        return;
      }
      var tentativeSeq := lastSequenceNo + 1;
      var stamped := Stamp(platform, tentativeSeq, lastChainHmac, record);
      var tentativeHmac := Link(platform, lastChainHmac, stamped);
      RotateIfNeeded(io);
      if io.writeOk {
        var lines := if current.Some? then current.value else [];
        current := Some(lines + [Parsed(JObj(stamped))]);
        lastSequenceNo := tentativeSeq;
        lastChainHmac := tentativeHmac;
      }
    }

    method Write(record: Dict, io: Io) returns (raised: bool)
      modifies this
      ensures Abstract() == Written(platform, rotateBytes, old(Abstract()), record, io)
      ensures raised == Raises(platform, old(Abstract()), io)
      ensures !raised && io.writeOk ==> LastWritten(Abstract(), record)
      ensures raised || !io.writeOk ==> DiskFiles(Abstract()) == old(DiskFiles(Abstract()))
      ensures rotated == if !raised && old(Moves(rotateBytes, Abstract(), io)) then
                           old(rotated) + [Readable(old(current).value)]
                         else old(rotated)
    {
      WriteMoves(platform, rotateBytes, Abstract(), record, io);
      WriteAppends(platform, rotateBytes, Abstract(), record, io);
      raised := false;
      if !chainLoaded {
        raised := LoadChainState(io);
        if raised {
          return;
        }
      }
      raised := Store(record, io);
    }

    method Emit(ctx: Context, e: Event, io: Io) returns (raised: bool)
      modifies this
      ensures Abstract() == Written(platform, rotateBytes, old(Abstract()), RecordOf(platform, ctx, e), io)
      ensures raised == Raises(platform, old(Abstract()), io)
      ensures !raised && io.writeOk ==> LastWritten(Abstract(), RecordOf(platform, ctx, e))
    {
      raised := Write(RecordOf(platform, ctx, e), io);
    }
  }

  // ---------------------------------------------------------------- runs

  datatype Step = Emit(record: Dict, io: Io) | Restart

  function Next(p: Platform, rotateBytes: int, s: State, step: Step): State {
    match step
    case Emit(record, io) => Written(p, rotateBytes, s, record, io)
    case Restart => s.(loaded := false, lastSeq := 0, lastHmac := "")
  }

  function Run(p: Platform, rotateBytes: int, s: State, steps: seq<Step>): State
    decreases |steps|
  {
    if steps == [] then s else Run(p, rotateBytes, Next(p, rotateBytes, s, steps[0]), steps[1..])
  }

  // The directory listing shows the rotated files that are there, in any order.
  predicate Legal(s: State, step: Step) {
    step.Emit? ==> IsV2(step.record) && multiset(step.io.listing) == multiset(s.rotated)
  }

  predicate LegalRun(p: Platform, rotateBytes: int, s: State, steps: seq<Step>)
    decreases |steps|
  {
    steps != [] ==> Legal(s, steps[0]) && LegalRun(p, rotateBytes, Next(p, rotateBytes, s, steps[0]), steps[1..])
  }

  // The records whose append succeeded, in order.
  function Succeeded(steps: seq<Step>): seq<Dict> {
    if steps == [] then []
    else if steps[0].Emit? && steps[0].io.writeOk && steps[0].io.encodes then
      [steps[0].record] + Succeeded(steps[1..])
    else Succeeded(steps[1..])
  }

  // The log a writer that never fails, rotates or restarts would produce on top of `log`.
  function Journal(p: Platform, log: seq<Dict>, records: seq<Dict>): seq<Dict>
    decreases |records|
  {
    if records == [] then log
    else Journal(p, log + [Stamp(p, |log| + 1, Head(p, log), records[0])], records[1..])
  }

  // ---------------------------------------------------------------- recovery

  predicate BestSoFar(p: Platform, objects: seq<Dict>, number: int, hmac: string, n: int, h: string) {
    && number <= n
    && (forall d :: d in objects ==> Num(d) <= n)
    && ((n == number && h == hmac) || exists d :: d in objects && Num(d) == n && StoredHmac(p, d) == h)
  }

  lemma {:induction false} ScanLinesFinds(p: Platform, lines: seq<Line>, number: int, hmac: string)
    requires forall line :: line in lines ==> CleanLine(line)
    ensures ScanLines(p, lines, number, hmac).Found?
    ensures var r := ScanLines(p, lines, number, hmac); BestSoFar(p, LineObjects(lines), number, hmac, r.number, r.hmac)
  {
    if lines != [] {
      assert lines[0] in lines;
      if lines[0].Parsed? {
        var d := lines[0].value.fields;
        if Num(d) > number {
          ScanLinesFinds(p, lines[1..], Num(d), StoredHmac(p, d));
        } else {
          ScanLinesFinds(p, lines[1..], number, hmac);
        }
        assert LineObjects(lines) == [d] + LineObjects(lines[1..]);
      } else {
        ScanLinesFinds(p, lines[1..], number, hmac);
      }
    }
  }

  lemma {:induction false} ScanFilesFinds(p: Platform, files: seq<LogFile>, number: int, hmac: string)
    requires Clean(files)
    ensures ScanFiles(p, files, number, hmac).Found?
    ensures var r := ScanFiles(p, files, number, hmac); BestSoFar(p, Objects(files), number, hmac, r.number, r.hmac)
  {
    if files != [] {
      assert files[0] in files;
      ScanLinesFinds(p, files[0].lines, number, hmac);
      var r := ScanLines(p, files[0].lines, number, hmac);
      ScanFilesFinds(p, files[1..], r.number, r.hmac);
      assert Objects(files) == LineObjects(files[0].lines) + Objects(files[1..]);
    }
  }

  // Scanning the files of an intact log, in whatever order, recovers its length and head.
  lemma ScanRecovers(p: Platform, files: seq<LogFile>, log: seq<Dict>)
    requires Clean(files) && Chain(p, log) && multiset(Objects(files)) == multiset(log)
    ensures ScanFiles(p, files, 0, "") == Found(|log|, Head(p, log))
  {
    ScanFilesFinds(p, files, 0, "");
    var r := ScanFiles(p, files, 0, "");
    ScanReaches(p, log, Objects(files), r.number);
    if r != Found(0, "") {
      ScanHits(p, log, Objects(files), r.number, r.hmac);
    }
  }

  lemma ScanHits(p: Platform, log: seq<Dict>, objects: seq<Dict>, n: int, h: string)
    requires Chain(p, log) && multiset(objects) == multiset(log) && |log| <= n
    requires exists d :: d in objects && Num(d) == n && StoredHmac(p, d) == h
    ensures n == |log| && h == Head(p, log)
  {
    var d :| d in objects && Num(d) == n && StoredHmac(p, d) == h;
    var k := PlaceInChain(p, log, objects, d);
  }

  lemma ScanReaches(p: Platform, log: seq<Dict>, objects: seq<Dict>, n: int)
    requires Chain(p, log) && multiset(objects) == multiset(log) && forall d :: d in objects ==> Num(d) <= n
    ensures log == [] || |log| <= n
  {
    if log != [] {
      var d := log[|log| - 1];
      assert ChainAt(p, log, |log| - 1);
      assert d in multiset(log);
      assert d in objects;
    }
  }

  // ---------------------------------------------------------------- refinement

  // The emitter and its disk stand for `log`.
  ghost predicate InSync(p: Platform, s: State, log: seq<Dict>) {
    && Chain(p, log)
    && Clean(DiskFiles(s))
    && multiset(Objects(DiskFiles(s))) == multiset(log)
    && (s.loaded ==> s.lastSeq == |log| && s.lastHmac == Head(p, log))
  }

  lemma StampExtends(p: Platform, log: seq<Dict>, record: Dict)
    requires Chain(p, log) && IsV2(record)
    ensures var d := Stamp(p, |log| + 1, Head(p, log), record);
            Chain(p, log + [d]) && StoredHmac(p, d) == Link(p, Head(p, log), d)
  {
    var numbered := record["sequence_no" := JInt(|log| + 1)];
    var d := Stamp(p, |log| + 1, Head(p, log), record);
    assert Body(d) == Body(numbered);
    var log' := log + [d];
    forall i | 0 <= i < |log'| ensures ChainAt(p, log', i) {
      assert log'[..i] == log[..i];
      if i < |log| { assert ChainAt(p, log, i); } else { assert log[..i] == log; }
    }
  }

  lemma {:induction false} LineObjectsConcat(a: seq<Line>, b: seq<Line>)
    ensures LineObjects(a + b) == LineObjects(a) + LineObjects(b)
  {
    if a == [] {
      assert a + b == b;
    } else {
      assert (a + b)[1..] == a[1..] + b;
      LineObjectsConcat(a[1..], b);
    }
  }

  lemma AppendAdds(s: State, d: Dict)
    requires Clean(DiskFiles(s)) && IsV2(d) && SeqNo(d).Some?
    ensures Clean(DiskFiles(Appended(s, d)))
    ensures Objects(DiskFiles(Appended(s, d))) == Objects(DiskFiles(s)) + [d]
  {
    var lines := if s.current.Some? then s.current.value else [];
    var s' := Appended(s, d);
    LineObjectsConcat(lines, [Parsed(JObj(d))]);
    ObjectsConcat(s.rotated, CurrentFile(s));
    ObjectsConcat(s.rotated, CurrentFile(s'));
    assert Objects(CurrentFile(s)) == LineObjects(lines);
    assert Objects(CurrentFile(s')) == LineObjects(lines) + [d];
    AppendKeepsClean(s, d);
  }

  lemma AppendKeepsClean(s: State, d: Dict)
    requires Clean(DiskFiles(s)) && IsV2(d) && SeqNo(d).Some?
    ensures Clean(DiskFiles(Appended(s, d)))
  {
    assert s.current.Some? ==> CurrentFile(s)[0] in DiskFiles(s);
    forall f | f in DiskFiles(Appended(s, d)) ensures f.Readable? && forall line :: line in f.lines ==>
        CleanLine(line) {
      assert f in DiskFiles(s) || f == CurrentFile(Appended(s, d))[0];
    }
  }

  lemma RotateKeeps(rotateBytes: int, s: State, io: Io)
    ensures DiskFiles(Rotated(rotateBytes, s, io)) == DiskFiles(s)
  {
  }

  lemma LoadSyncs(p: Platform, s: State, io: Io, log: seq<Dict>)
    requires InSync(p, s, log) && multiset(io.listing) == multiset(s.rotated)
    ensures Loaded(p, s, io) == Some(s.(loaded := true, lastSeq := |log|, lastHmac := Head(p, log)))
  {
    DiskRecovers(p, s, io.listing, log);
  }

  lemma DiskRecovers(p: Platform, s: State, listing: seq<LogFile>, log: seq<Dict>)
    requires InSync(p, s, log) && multiset(listing) == multiset(s.rotated)
    ensures ScanFiles(p, CurrentFile(s) + listing, 0, "") == Found(|log|, Head(p, log))
  {
    var files := CurrentFile(s) + listing;
    assert multiset(files) == multiset(DiskFiles(s));
    ObjectsPermute(files, DiskFiles(s));
    ScanRecovers(p, files, log);
  }

  // What one write makes of the log.
  function Extended(p: Platform, log: seq<Dict>, record: Dict, io: Io): seq<Dict> {
    if Lands(io) then log + [Stamp(p, |log| + 1, Head(p, log), record)] else log
  }

  lemma StoredSyncs(p: Platform, rotateBytes: int, l: State, record: Dict, io: Io, log: seq<Dict>)
    requires InSync(p, l, log) && l.loaded && IsV2(record)
    ensures InSync(p, Stored(p, rotateBytes, l, record, io), Extended(p, log, record, io))
  {
    var r := Rotated(rotateBytes, l, io);
    RotateKeeps(rotateBytes, l, io);
    if Lands(io) {
      var d := Stamp(p, |log| + 1, Head(p, log), record);
      StampExtends(p, log, record);
      assert ChainAt(p, log + [d], |log|);
      AppendAdds(r, d);
    }
  }

  lemma WriteSyncs(p: Platform, rotateBytes: int, s: State, record: Dict, io: Io, log: seq<Dict>)
    requires InSync(p, s, log) && IsV2(record) && multiset(io.listing) == multiset(s.rotated)
    ensures InSync(p, Written(p, rotateBytes, s, record, io), Extended(p, log, record, io))
  {
    LoadSyncs(p, s, io, log);
    var l := Loaded(p, s, io).value;
    assert DiskFiles(l) == DiskFiles(s);
    StoredSyncs(p, rotateBytes, l, record, io, log);
  }

  lemma {:induction false} RunSyncs(p: Platform, rotateBytes: int, s: State, steps: seq<Step>, log: seq<Dict>)
    requires InSync(p, s, log) && LegalRun(p, rotateBytes, s, steps)
    ensures InSync(p, Run(p, rotateBytes, s, steps), Journal(p, log, Succeeded(steps)))
    decreases |steps|
  {
    if steps != [] {
      var log' := StepSyncs(p, rotateBytes, s, steps[0], log);
      RunSyncs(p, rotateBytes, Next(p, rotateBytes, s, steps[0]), steps[1..], log');
      if steps[0].Emit? && Lands(steps[0].io) {
        assert Succeeded(steps) == [steps[0].record] + Succeeded(steps[1..]);
      } else {
        assert Succeeded(steps) == Succeeded(steps[1..]);
      }
    }
  }

  lemma StepSyncs(p: Platform, rotateBytes: int, s: State, step: Step, log: seq<Dict>) returns (log': seq<Dict>)
    requires InSync(p, s, log) && Legal(s, step)
    ensures InSync(p, Next(p, rotateBytes, s, step), log')
    ensures log' == if step.Emit? && Lands(step.io) then log + [Stamp(p, |log| + 1, Head(p, log), step.record)] else log
  {
    if step.Emit? {
      WriteSyncs(p, rotateBytes, s, step.record, step.io, log);
      log' := if Lands(step.io) then log + [Stamp(p, |log| + 1, Head(p, log), step.record)] else log;
    } else {
      log' := log;
      assert DiskFiles(Next(p, rotateBytes, s, step)) == DiskFiles(s);
    }
  }

  lemma {:induction false} JournalLength(p: Platform, log: seq<Dict>, records: seq<Dict>)
    ensures |Journal(p, log, records)| == |log| + |records|
    decreases |records|
  {
    if records != [] {
      JournalLength(p, log + [Stamp(p, |log| + 1, Head(p, log), records[0])], records[1..]);
    }
  }

  // The journal keeps what was there and adds the given records, one for one.
  ghost predicate Continues(log: seq<Dict>, records: seq<Dict>, journal: seq<Dict>) {
    && |journal| == |log| + |records|
    && (forall i :: 0 <= i < |log| ==> journal[i] == log[i])
    && (forall i :: 0 <= i < |records| ==> SameContent(journal[|log| + i], records[i]))
  }

  lemma ContinuesCons(log: seq<Dict>, d: Dict, records: seq<Dict>, journal: seq<Dict>)
    requires records != [] && SameContent(d, records[0]) && Continues(log + [d], records[1..], journal)
    ensures Continues(log, records, journal)
  {
    forall i | 0 <= i < |log| ensures journal[i] == log[i] {
      assert (log + [d])[i] == log[i];
    }
    forall i | 0 <= i < |records| ensures SameContent(journal[|log| + i], records[i]) {
      if i > 0 { assert SameContent(journal[|log + [d]| + (i - 1)], records[1..][i - 1]); }
      else { assert (log + [d])[|log|] == d; }
    }
  }

  lemma {:induction false} JournalKeeps(p: Platform, log: seq<Dict>, records: seq<Dict>)
    ensures Continues(log, records, Journal(p, log, records))
    decreases |records|
  {
    if records != [] {
      var d := Stamp(p, |log| + 1, Head(p, log), records[0]);
      StampKeeps(p, |log| + 1, Head(p, log), records[0]);
      JournalKeeps(p, log + [d], records[1..]);
      ContinuesCons(log, d, records, Journal(p, log, records));
    }
  }

  lemma SyncedVerifies(p: Platform, s: State, log: seq<Dict>, paths: seq<LogFile>)
    requires InSync(p, s, log) && multiset(paths) == multiset(DiskFiles(s))
    ensures Verified(p, paths) == Verdict(true, |log|, None, None, []) && Records(paths) == log
  {
    ObjectsPermute(paths, DiskFiles(s));
    SortedChain(p, log, Objects(paths));
    AcceptedIff(p, paths);
    assert |Objects(paths)| == |multiset(Objects(paths))| == |log|;
  }

  lemma ReadsSucceeded(found: seq<Dict>, records: seq<Dict>)
    requires Continues([], records, found)
    ensures forall i :: 0 <= i < |records| ==>
              found[i] - {"sequence_no", "chain_hmac"} == records[i] - {"sequence_no", "chain_hmac"}
  {
    forall i | 0 <= i < |records|
      ensures found[i] - {"sequence_no", "chain_hmac"} == records[i] - {"sequence_no", "chain_hmac"}
    {
      var none: seq<Dict> := [];
      assert SameContent(found[|none| + i], records[i]);
    }
  }

  // Rotation, failed writes and restarts are invisible: after any run the auditor, given the paths in any
  // order, accepts, counts the successful emits, and reads exactly the journal of those emits: their records, in
  // order and with all their fields.
  lemma EmitterRefinesJournal(p: Platform, rotateBytes: int, steps: seq<Step>, paths: seq<LogFile>)
    requires LegalRun(p, rotateBytes, FRESH, steps)
    requires multiset(paths) == multiset(DiskFiles(Run(p, rotateBytes, FRESH, steps)))
    ensures Verified(p, paths) == Verdict(true, |Succeeded(steps)|, None, None, [])
    ensures Records(paths) == Journal(p, [], Succeeded(steps))
    ensures |Records(paths)| == |Succeeded(steps)|
    ensures forall i :: 0 <= i < |Succeeded(steps)| ==>
              Records(paths)[i] - {"sequence_no", "chain_hmac"} == Succeeded(steps)[i] - {"sequence_no", "chain_hmac"}
  {
    RunSyncs(p, rotateBytes, FRESH, steps, []);
    SyncedVerifies(p, Run(p, rotateBytes, FRESH, steps), Journal(p, [], Succeeded(steps)), paths);
    JournalKeeps(p, [], Succeeded(steps));
    ReadsSucceeded(Records(paths), Succeeded(steps));
  }

  lemma SyncedRecovers(p: Platform, s: State, listing: seq<LogFile>, log: seq<Dict>)
    requires InSync(p, s, log) && multiset(listing) == multiset(s.rotated)
    ensures var found := ScanFiles(p, CurrentFile(s) + listing, 0, "");
            found == Found(|log|, Head(p, log)) && (s.loaded ==> found == Found(s.lastSeq, s.lastHmac))
  {
    DiskRecovers(p, s, listing, log);
  }

  // A restarted emitter recovers exactly the counters of the one that wrote the log.
  lemma RestartRecoversCounters(p: Platform, rotateBytes: int, steps: seq<Step>, listing: seq<LogFile>)
    requires LegalRun(p, rotateBytes, FRESH, steps)
    requires multiset(listing) == multiset(Run(p, rotateBytes, FRESH, steps).rotated)
    ensures var s := Run(p, rotateBytes, FRESH, steps);
            var found := ScanFiles(p, CurrentFile(s) + listing, 0, "");
            && found == Found(|Succeeded(steps)|, Head(p, Journal(p, [], Succeeded(steps))))
            && (s.loaded ==> found == Found(s.lastSeq, s.lastHmac))
  {
    RunSyncs(p, rotateBytes, FRESH, steps, []);
    JournalLength(p, [], Succeeded(steps));
    SyncedRecovers(p, Run(p, rotateBytes, FRESH, steps), listing, Journal(p, [], Succeeded(steps)));
  }

  // ---------------------------------------------------------------- when a write raises

  // Bytes that are no UTF-8, text the parser gives up on, or JSON that is no object.
  ghost predicate Unscannable(line: Line) { StopsReader(line) || (line.Parsed? && !line.value.JObj?) }

  ghost predicate SomeUnscannable(lines: seq<Line>) { exists i :: 0 <= i < |lines| && Unscannable(lines[i]) }

  ghost predicate HoldsUnscannable(f: LogFile) { f.Readable? && SomeUnscannable(f.lines) }

  ghost predicate SomeHolds(files: seq<LogFile>) { exists i :: 0 <= i < |files| && HoldsUnscannable(files[i]) }

  lemma {:induction false} ScanLinesRaisesIff(p: Platform, lines: seq<Line>, number: int, hmac: string)
    ensures ScanLines(p, lines, number, hmac).ScanRaised? <==> SomeUnscannable(lines)
  {
    if lines != [] {
      var rest := lines[1..];
      assert forall i :: 1 <= i < |lines| ==> lines[i] == rest[i - 1];
      assert SomeUnscannable(lines) <==> Unscannable(lines[0]) || SomeUnscannable(rest);
      if lines[0].Parsed? && lines[0].value.JObj? && SeqNo(lines[0].value.fields).Some?
          && Num(lines[0].value.fields) > number {
        ScanLinesRaisesIff(p, rest, Num(lines[0].value.fields), StoredHmac(p, lines[0].value.fields));
      } else {
        ScanLinesRaisesIff(p, rest, number, hmac);
      }
    }
  }

  lemma {:induction false} ScanFilesRaisesIff(p: Platform, files: seq<LogFile>, number: int, hmac: string)
    ensures ScanFiles(p, files, number, hmac).ScanRaised? <==> SomeHolds(files)
  {
    if files != [] {
      var rest := files[1..];
      assert forall i :: 1 <= i < |files| ==> files[i] == rest[i - 1];
      assert SomeHolds(files) <==> HoldsUnscannable(files[0]) || SomeHolds(rest);
      if files[0].Readable? {
        ScanLinesRaisesIff(p, files[0].lines, number, hmac);
        match ScanLines(p, files[0].lines, number, hmac)
        case ScanRaised =>
        case Found(n, h) => ScanFilesRaisesIff(p, rest, n, h);
      } else {
        ScanFilesRaisesIff(p, rest, number, hmac);
      }
    }
  }

  // The first of the objects with the highest number, if that is higher than what was known before.
  ghost predicate FirstHighest(p: Platform, objects: seq<Dict>, number: int, hmac: string, r: Recovered) {
    && r.Found?
    && (forall d :: d in objects ==> Num(d) <= r.number)
    && ((r.number == number && r.hmac == hmac)
        || (r.number > number && exists k :: FirstWith(p, objects, k, r.number, r.hmac)))
  }

  ghost predicate FirstWith(p: Platform, objects: seq<Dict>, k: int, number: int, hmac: string) {
    && 0 <= k < |objects| && Num(objects[k]) == number && StoredHmac(p, objects[k]) == hmac
    && forall j :: 0 <= j < k ==> Num(objects[j]) < number
  }

  lemma HighestSkips(p: Platform, d: Dict, rest: seq<Dict>, number: int, hmac: string, r: Recovered)
    requires FirstHighest(p, rest, number, hmac, r) && Num(d) <= number
    ensures FirstHighest(p, [d] + rest, number, hmac, r)
  {
    if r.number > number {
      var k :| FirstWith(p, rest, k, r.number, r.hmac);
      assert FirstWith(p, [d] + rest, k + 1, r.number, r.hmac);
    }
  }

  lemma HighestTakes(p: Platform, d: Dict, rest: seq<Dict>, number: int, hmac: string, r: Recovered)
    requires FirstHighest(p, rest, Num(d), StoredHmac(p, d), r) && Num(d) > number
    ensures FirstHighest(p, [d] + rest, number, hmac, r)
  {
    var objects := [d] + rest;
    if r.number > Num(d) {
      var k :| FirstWith(p, rest, k, r.number, r.hmac);
      assert FirstWith(p, objects, k + 1, r.number, r.hmac);
    } else {
      assert FirstWith(p, objects, 0, r.number, r.hmac);
    }
  }

  lemma HighestJoins(p: Platform, a: seq<Dict>, b: seq<Dict>, number: int, hmac: string, m: Recovered, r: Recovered)
    requires FirstHighest(p, a, number, hmac, m) && FirstHighest(p, b, m.number, m.hmac, r)
    ensures FirstHighest(p, a + b, number, hmac, r)
  {
    if r.number > m.number {
      var k :| FirstWith(p, b, k, r.number, r.hmac);
      assert FirstWith(p, a + b, |a| + k, r.number, r.hmac);
    } else if r.number > number {
      var k :| FirstWith(p, a, k, r.number, r.hmac);
      assert FirstWith(p, a + b, k, r.number, r.hmac);
    }
  }

  lemma {:induction false} LinesHighest(p: Platform, lines: seq<Line>, number: nat, hmac: string)
    requires ScanLines(p, lines, number, hmac).Found?
    ensures FirstHighest(p, LineObjects(lines), number, hmac, ScanLines(p, lines, number, hmac))
  {
    if lines != [] {
      var r := ScanLines(p, lines, number, hmac);
      if lines[0].Parsed? {
        var d := lines[0].value.fields;
        if Num(d) > number {
          LinesHighest(p, lines[1..], Num(d), StoredHmac(p, d));
          HighestTakes(p, d, LineObjects(lines[1..]), number, hmac, r);
        } else {
          LinesHighest(p, lines[1..], number, hmac);
          HighestSkips(p, d, LineObjects(lines[1..]), number, hmac, r);
        }
      } else {
        LinesHighest(p, lines[1..], number, hmac);
        assert [] + LineObjects(lines[1..]) == LineObjects(lines[1..]);
      }
    }
  }

  // Of whatever is in the log, the scan takes the first record with the highest number.
  lemma {:induction false} ScanFindsHighest(p: Platform, files: seq<LogFile>, number: nat, hmac: string)
    requires ScanFiles(p, files, number, hmac).Found?
    ensures FirstHighest(p, Objects(files), number, hmac, ScanFiles(p, files, number, hmac))
  {
    if files != [] {
      if files[0].Readable? {
        var m := ScanLines(p, files[0].lines, number, hmac);
        LinesHighest(p, files[0].lines, number, hmac);
        ScanFindsHighest(p, files[1..], m.number, m.hmac);
        HighestJoins(p, LineObjects(files[0].lines), Objects(files[1..]), number, hmac, m,
            ScanFiles(p, files, number, hmac));
      } else {
        ScanFindsHighest(p, files[1..], number, hmac);
        assert [] + Objects(files[1..]) == Objects(files[1..]);
      }
    }
  }

  // Against the documentation, recording can raise into the caller: exactly when the record cannot be
  // written as JSON, or the chain is still to be recovered and some log file has a line that is no UTF-8, is
  // too much for the parser, or is JSON but no object. In the second case the state is unchanged, so every later
  // call raises too.
  lemma WriteRaisesIff(p: Platform, rotateBytes: int, s: State, record: Dict, io: Io)
    ensures Raises(p, s, io) <==> !io.encodes || (!s.loaded && SomeHolds(CurrentFile(s) + io.listing))
    ensures !s.loaded && SomeHolds(CurrentFile(s) + io.listing) ==> Written(p, rotateBytes, s, record, io) == s
    ensures !Raises(p, s, io) ==> Written(p, rotateBytes, s, record, io).loaded
  {
    ScanFilesRaisesIff(p, CurrentFile(s) + io.listing, 0, "");
  }

  // A log file holding the line `42` is enough.
  lemma NumberLineRaises(p: Platform, rotateBytes: int, record: Dict, io: Io)
    ensures var s := State(Some([Parsed(JInt(42))]), [], false, 0, "");
            Raises(p, s, io) && Written(p, rotateBytes, s, record, io) == s
  {
    var s := State(Some([Parsed(JInt(42))]), [], false, 0, "");
    var files := CurrentFile(s) + io.listing;
    assert Unscannable(s.current.value[0]);
    assert files[0] == Readable(s.current.value) && HoldsUnscannable(files[0]);
    WriteRaisesIff(p, rotateBytes, s, record, io);
  }
}
