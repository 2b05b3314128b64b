// What plans and their receipts look like for every goal, and what a run leaves in the audit chain.
module PlannerRuns {
  import opened Wrappers
  import opened CanonicalJson
  import opened AuditChain
  import opened AuditEvidence
  import opened AuditEmitter
  import opened AuditRecords
  import opened Planner

  // ---------------------------------------------------------------- plans

  function KnownNeeds(needs: seq<string>): set<string> {
    set n | n in needs && SpecialistFor(n).Some?
  }

  function Specialists(steps: seq<PlanStep>): (r: seq<string>)
    ensures |r| == |steps| && forall i :: 0 <= i < |r| ==> r[i] == steps[i].specialist
  {
    seq(|steps|, i requires 0 <= i < |steps| => steps[i].specialist)
  }

  function OnlyWanted(order: seq<string>, wanted: set<string>): seq<string> {
    if order == [] then []
    else (if order[0] in wanted then [order[0]] else []) + OnlyWanted(order[1..], wanted)
  }

  lemma {:induction false} StepsDependOnWanted(p: Platform, rt: Runtime, order: seq<string>, g: Goal, h: Goal)
    requires Wanted(g.needs) == Wanted(h.needs) && g == h.(needs := g.needs)
    ensures StepsFor(p, rt, order, g) == StepsFor(p, rt, order, h)
  {
    if order != [] {
      StepsDependOnWanted(p, rt, order[1..], g, h);
    }
  }

  // The order, repetition and unknown names among the needs do not matter.
  lemma PlanDependsOnKnownNeeds(p: Platform, rt: Runtime, g: Goal, h: Goal)
    requires KnownNeeds(g.needs) == KnownNeeds(h.needs) && g == h.(needs := g.needs)
    ensures Decompose(p, rt, g) == Decompose(p, rt, h)
  {
    WantedOfKnown(g.needs);
    WantedOfKnown(h.needs);
    StepsDependOnWanted(p, rt, CANONICAL_ORDER, g, h);
  }

  lemma WantedOfKnown(needs: seq<string>)
    ensures Wanted(needs) == set n | n in KnownNeeds(needs) :: SpecialistFor(n).value
  {
  }

  lemma {:induction false} StepsFollowOrder(p: Platform, rt: Runtime, order: seq<string>, g: Goal)
    ensures StepsFor(p, rt, order, g).Some? <==> forall s :: s in order && s in Wanted(g.needs) ==>
        BuildInput(p, rt, s, g).Some?
    ensures StepsFor(p, rt, order, g).Some? ==>
              var steps := StepsFor(p, rt, order, g).value;
              && Specialists(steps) == OnlyWanted(order, Wanted(g.needs))
              && forall i :: 0 <= i < |steps| ==> Some(steps[i].input) == BuildInput(p, rt, steps[i].specialist, g)
  {
    if order != [] {
      StepsFollowOrder(p, rt, order[1..], g);
      assert forall s :: s in order <==> s == order[0] || s in order[1..];
    }
  }

  lemma LetterBuildsIff(p: Platform, rt: Runtime, g: Goal)
    ensures BuildInput(p, rt, "letter_agent", g).None? <==>
              AsDict(rt, At(g.context, "job", JObj(map[]))).None?
              || AsDict(rt, At(g.context, "profile", JObj(map["persona_slug" := JStr(g.persona)]))).None?
  {
  }

  // Every wanted specialist, in the canonical order, each once; it fails exactly when a context value
  // cannot be converted.
  lemma PlanFollowsOrder(p: Platform, rt: Runtime, g: Goal)
    ensures Decompose(p, rt, g).Some? ==>
              Specialists(Decompose(p, rt, g).value) == OnlyWanted(CANONICAL_ORDER, Wanted(g.needs))
    ensures Decompose(p, rt, g).None? <==>
              || ("letter" in g.needs
                  && (AsDict(rt, At(g.context, "job", JObj(map[]))).None?
                      || AsDict(rt, At(g.context, "profile", JObj(map["persona_slug" := JStr(g.persona)]))).None?))
              || ("housing" in g.needs && Scope(rt, g).None?)
  {
    StepsFollowOrder(p, rt, CANONICAL_ORDER, g);
    WantedNames(g.needs);
    LetterBuildsIff(p, rt, g);
    assert forall s :: s in CANONICAL_ORDER && s != "letter_agent" && s != "housing_agent" ==>
        BuildInput(p, rt, s, g).Some?;
    assert "letter_agent" in CANONICAL_ORDER && "housing_agent" in CANONICAL_ORDER;
  }

  lemma WantedNames(needs: seq<string>)
    ensures "letter_agent" in Wanted(needs) <==> "letter" in needs
    ensures "housing_agent" in Wanted(needs) <==> "housing" in needs
  {
    assert "letter" in needs ==> SpecialistFor("letter").value in Wanted(needs);
    assert "housing" in needs ==> SpecialistFor("housing").value in Wanted(needs);
  }

  lemma WantedIff(needs: seq<string>, need: string, specialist: string)
    requires forall n :: SpecialistFor(n) == Some(specialist) <==> n == need
    ensures specialist in Wanted(needs) <==> need in needs
  {
    assert SpecialistFor(need) == Some(specialist);
  }

  // Which need brings in which specialist.
  lemma PlanServesNeeds(p: Platform, rt: Runtime, g: Goal)
    requires Decompose(p, rt, g).Some?
    ensures var names := Specialists(Decompose(p, rt, g).value);
            && ("cv_agent" in names <==> "cv" in g.needs)
            && ("search_agent" in names <==> "search" in g.needs)
            && ("anerkennung_agent" in names <==> "anerkennung" in g.needs)
            && ("letter_agent" in names <==> "letter" in g.needs)
            && ("housing_agent" in names <==> "housing" in g.needs)
            && ("compliance_agent" in names <==> "compliance" in g.needs)
  {
    StepsFollowOrder(p, rt, CANONICAL_ORDER, g);
    OnlyWantedMembers(CANONICAL_ORDER, Wanted(g.needs));
    WantedIff(g.needs, "cv", "cv_agent");
    WantedIff(g.needs, "search", "search_agent");
    WantedIff(g.needs, "anerkennung", "anerkennung_agent");
    WantedIff(g.needs, "letter", "letter_agent");
    WantedIff(g.needs, "housing", "housing_agent");
    WantedIff(g.needs, "compliance", "compliance_agent");
  }

  // ---------------------------------------------------------------- inputs against the context

  // A text of the context, under its own name; what is no text in its printed form.
  predicate FromContext(p: Platform, ctx: Dict, input: Dict, key: string, default: string) {
    && key in input
    && (key !in ctx ==> input[key] == JStr(default))
    && (key in ctx && ctx[key].JStr? ==> input[key] == ctx[key])
    && (key in ctx && !ctx[key].JStr? ==> input[key] == JStr(p.repr(ctx[key])))
  }

  predicate InputIs(input: Dict, key: string, v: Json) { key in input && input[key] == v }

  lemma CvInput(p: Platform, rt: Runtime, g: Goal)
    ensures BuildInput(p, rt, "cv_agent", g).Some?
    ensures var input := BuildInput(p, rt, "cv_agent", g).value;
            InputIs(input, "persona_slug", JStr(g.persona)) && FromContext(p, g.context, input, "target_lang", "de")
  {
  }

  lemma SearchInput(p: Platform, rt: Runtime, g: Goal)
    ensures BuildInput(p, rt, "search_agent", g).Some?
    ensures var input := BuildInput(p, rt, "search_agent", g).value;
            && InputIs(input, "persona", JStr(g.persona)) && FromContext(p, g.context, input, "role", "")
            && FromContext(p, g.context, input, "location", "")
            && FromContext(p, g.context, input, "friction_class", "")
  {
  }

  lemma RecognitionInput(p: Platform, rt: Runtime, g: Goal)
    ensures BuildInput(p, rt, "anerkennung_agent", g).Some?
    ensures var input := BuildInput(p, rt, "anerkennung_agent", g).value;
            && InputIs(input, "persona_slug", JStr(g.persona))
            && FromContext(p, g.context, input, "current_status", "")
            && FromContext(p, g.context, input, "target_profession", "")
  {
  }

  lemma ComplianceInput(p: Platform, rt: Runtime, g: Goal)
    ensures BuildInput(p, rt, "compliance_agent", g).Some?
    ensures var input := BuildInput(p, rt, "compliance_agent", g).value;
            && FromContext(p, g.context, input, "event_class", "plan_closeout")
            && FromContext(p, g.context, input, "user_opaque_id", "")
            && FromContext(p, g.context, input, "ai_output_ref", g.goalId)
  {
  }

  // An object of the context as it is.
  predicate ObjectFrom(ctx: Dict, input: Dict, key: string, default: Dict) {
    && key in input && input[key].JObj?
    && (key !in ctx ==> input[key] == JObj(default))
    && (key in ctx && ctx[key].JObj? ==> input[key] == ctx[key])
  }

  lemma LetterInput(p: Platform, rt: Runtime, g: Goal)
    requires BuildInput(p, rt, "letter_agent", g).Some?
    ensures var input := BuildInput(p, rt, "letter_agent", g).value;
            && ObjectFrom(g.context, input, "job", map[])
            && ObjectFrom(g.context, input, "profile", map["persona_slug" := JStr(g.persona)])
            && FromContext(p, g.context, input, "friction_context", "")
  {
  }

  lemma HousingInput(p: Platform, rt: Runtime, g: Goal)
    requires BuildInput(p, rt, "housing_agent", g).Some?
    ensures var input := BuildInput(p, rt, "housing_agent", g).value;
            && "user_consent_scope" in input && input["user_consent_scope"].JArr?
            && ("user_consent_scope" !in g.context ==> input["user_consent_scope"] == JArr([]))
            && ("user_consent_scope" in g.context && g.context["user_consent_scope"].JArr? ==>
                  input["user_consent_scope"] == g.context["user_consent_scope"])
            && FromContext(p, g.context, input, "target_city", "")
            && FromContext(p, g.context, input, "employment_status", "")
  {
  }

  // Every input carries the persona and, under their own names, the texts, objects and lists of the context.
  lemma InputsCarryContext(p: Platform, rt: Runtime, g: Goal)
    ensures BuildInput(p, rt, "search_agent", g).Some?
            && FromContext(p, g.context, BuildInput(p, rt, "search_agent", g).value, "role", "")
            && FromContext(p, g.context, BuildInput(p, rt, "search_agent", g).value, "location", "")
            && FromContext(p, g.context, BuildInput(p, rt, "search_agent", g).value, "friction_class", "")
    ensures BuildInput(p, rt, "anerkennung_agent", g).Some?
            && FromContext(p, g.context, BuildInput(p, rt, "anerkennung_agent", g).value, "current_status", "")
            && FromContext(p, g.context, BuildInput(p, rt, "anerkennung_agent", g).value, "target_profession", "")
    ensures BuildInput(p, rt, "cv_agent", g).Some?
            && FromContext(p, g.context, BuildInput(p, rt, "cv_agent", g).value, "target_lang", "de")
    ensures BuildInput(p, rt, "compliance_agent", g).Some?
            && FromContext(p, g.context, BuildInput(p, rt, "compliance_agent", g).value, "event_class", "plan_closeout")
            && FromContext(p, g.context, BuildInput(p, rt, "compliance_agent", g).value, "ai_output_ref", g.goalId)
    ensures BuildInput(p, rt, "letter_agent", g).Some? ==>
              ObjectFrom(g.context, BuildInput(p, rt, "letter_agent", g).value, "job", map[])
  {
    SearchInput(p, rt, g);
    RecognitionInput(p, rt, g);
    CvInput(p, rt, g);
    ComplianceInput(p, rt, g);
    if BuildInput(p, rt, "letter_agent", g).Some? { LetterInput(p, rt, g); }
  }

  // ---------------------------------------------------------------- inputs against their contracts

  predicate AllText(items: seq<Json>) { forall i :: 0 <= i < |items| ==> items[i].JStr? }

  lemma HousingConformsIff(p: Platform, rt: Runtime, g: Goal)
    requires Scope(rt, g).Some?
    ensures Conforms(rt, JObj(BuildInput(p, rt, "housing_agent", g).value), InputContract("housing_agent").value) <==>
            AllText(Scope(rt, g).value)
  {
    var c := InputContract("housing_agent").value;
    var input := BuildInput(p, rt, "housing_agent", g).value;
    assert "user_consent_scope" in c.properties && c.properties["user_consent_scope"] == TextArray;
    assert input["user_consent_scope"] == JArr(Scope(rt, g).value);
  }

  lemma LetterConforms(p: Platform, rt: Runtime, g: Goal)
    requires BuildInput(p, rt, "letter_agent", g).Some?
    ensures Conforms(rt, JObj(BuildInput(p, rt, "letter_agent", g).value), InputContract("letter_agent").value)
  {
  }

  lemma CvConforms(p: Platform, rt: Runtime, g: Goal)
    ensures Conforms(rt, JObj(BuildInput(p, rt, "cv_agent", g).value), InputContract("cv_agent").value)
  {
  }

  lemma SearchConforms(p: Platform, rt: Runtime, g: Goal)
    ensures Conforms(rt, JObj(BuildInput(p, rt, "search_agent", g).value), InputContract("search_agent").value)
  {
  }

  lemma RecognitionConforms(p: Platform, rt: Runtime, g: Goal)
    ensures Conforms(rt, JObj(BuildInput(p, rt, "anerkennung_agent", g).value),
        InputContract("anerkennung_agent").value)
  {
  }

  lemma ComplianceConforms(p: Platform, rt: Runtime, g: Goal)
    ensures Conforms(rt, JObj(BuildInput(p, rt, "compliance_agent", g).value), InputContract("compliance_agent").value)
  {
  }

  predicate InputOk(rt: Runtime, step: PlanStep) {
    Known(step) && Conforms(rt, JObj(step.input), InputContract(step.specialist).value)
  }

  lemma BuiltConformsIff(p: Platform, rt: Runtime, g: Goal, specialist: string)
    requires specialist in CANONICAL_ORDER && BuildInput(p, rt, specialist, g).Some?
    ensures InputOk(rt, PlanStep(specialist, BuildInput(p, rt, specialist, g).value)) <==>
            (specialist == "housing_agent" ==> AllText(Scope(rt, g).value))
  {
    if specialist == "cv_agent" { CvConforms(p, rt, g); }
    else if specialist == "search_agent" { SearchConforms(p, rt, g); }
    else if specialist == "anerkennung_agent" { RecognitionConforms(p, rt, g); }
    else if specialist == "letter_agent" { LetterConforms(p, rt, g); }
    else if specialist == "compliance_agent" { ComplianceConforms(p, rt, g); }
    else { HousingConformsIff(p, rt, g); }
  }

  lemma {:induction false} OnlyWantedMembers(order: seq<string>, wanted: set<string>)
    ensures forall s :: s in OnlyWanted(order, wanted) <==> s in order && s in wanted
  {
    if order != [] {
      OnlyWantedMembers(order[1..], wanted);
      assert forall s :: s in order <==> s == order[0] || s in order[1..];
    }
  }

  // Every planned input meets its contract, unless housing is wanted and the consent scope holds something
  // that is no string.
  lemma InputsConformIff(p: Platform, rt: Runtime, g: Goal)
    requires Decompose(p, rt, g).Some?
    ensures (forall i :: 0 <= i < |Decompose(p, rt, g).value| ==> InputOk(rt, Decompose(p, rt, g).value[i])) <==>
            ("housing" in g.needs ==> Scope(rt, g).Some? && AllText(Scope(rt, g).value))
  {
    PlanFollowsOrder(p, rt, g);
    var steps := Decompose(p, rt, g).value;
    var names := Specialists(steps);
    StepsFollowOrder(p, rt, CANONICAL_ORDER, g);
    OnlyWantedMembers(CANONICAL_ORDER, Wanted(g.needs));
    WantedNames(g.needs);
    forall i | 0 <= i < |steps|
      ensures names[i] in Wanted(g.needs)
      ensures InputOk(rt, steps[i]) <==> (steps[i].specialist == "housing_agent" ==> AllText(Scope(rt, g).value))
    {
      assert names[i] in names;
      assert steps[i].specialist in CANONICAL_ORDER;
      BuiltConformsIff(p, rt, g, steps[i].specialist);
      assert steps[i] == PlanStep(steps[i].specialist, BuildInput(p, rt, steps[i].specialist, g).value);
    }
    if "housing" in g.needs {
      assert "housing_agent" in CANONICAL_ORDER;
      assert "housing_agent" in names;
      var i :| 0 <= i < |names| && names[i] == "housing_agent";
    }
  }

  // ---------------------------------------------------------------- runs

  // The outcome of the steps, without the audit log.
  function Results(e: Script, i: nat): (r: seq<StepResult>)
    requires i <= e.count
    ensures |r| <= e.count - i
    decreases e.count - i
  {
    if i == e.count then []
    else [e.result(i)] + if Halts(e, e.result(i)) then [] else Results(e, i + 1)
  }

  // The records of n receipts from step i on.
  function Receipts(e: Script, i: nat, n: nat): (r: seq<Dict>)
    ensures |r| == n
    decreases n
  {
    if n == 0 then [] else [e.record(i)] + Receipts(e, i + 1, n - 1)
  }

  // Every specialist is known, every write succeeds and every listing shows the rotated files.
  predicate Quiet(e: Script, i: nat, s: State)
    requires i <= e.count
    decreases e.count - i
  {
    i < e.count ==>
      && e.known(i) && Lands(e.io(i)) && multiset(e.io(i).listing) == multiset(s.rotated)
      && Quiet(e, i + 1, AfterStep(e, i, s))
  }

  ghost predicate Shaped(e: Script, i: nat, r: seq<StepResult>) {
    && (forall k :: 0 <= k < |r| ==> r[k] == e.result(i + k))
    && (forall k :: 0 <= k < |r| - 1 ==> !Halts(e, r[k]))
    && (|r| < e.count - i ==> r != [] && Halts(e, r[|r| - 1]))
  }

  lemma ShapedCons(e: Script, i: nat, rest: seq<StepResult>)
    requires i < e.count && !Halts(e, e.result(i)) && Shaped(e, i + 1, rest)
    ensures Shaped(e, i, [e.result(i)] + rest)
  {
    var r := [e.result(i)] + rest;
    forall k | 0 < k < |r| ensures r[k] == rest[k - 1] && r[k] == e.result(i + k) {
      assert rest[k - 1] == e.result(i + 1 + (k - 1));
    }
  }

  // A step that fails ends a stopping run; otherwise every step has its result.
  lemma {:induction false} ResultsShape(e: Script, i: nat)
    requires i <= e.count
    ensures Shaped(e, i, Results(e, i))
    decreases e.count - i
  {
    if i < e.count && !Halts(e, e.result(i)) {
      ResultsShape(e, i + 1);
      ShapedCons(e, i, Results(e, i + 1));
    }
  }

  lemma {:induction false} ReceiptsAt(e: Script, i: nat, n: nat, k: nat)
    requires k < n
    ensures Receipts(e, i, n)[k] == e.record(i + k)
    decreases n
  {
    if k > 0 { ReceiptsAt(e, i + 1, n - 1, k - 1); }
  }

  predicate AllV2(e: Script) { forall k: nat :: k < e.count ==> IsV2(e.record(k)) }

  lemma JournalCons(p: Platform, log: seq<Dict>, record: Dict, rest: seq<Dict>)
    ensures Journal(p, log, [record] + rest) ==
            Journal(p, log + [AuditEmitter.Stamp(p, |log| + 1, Head(p, log), record)], rest)
  {
    assert ([record] + rest)[1..] == rest;
  }

  // The state the steps leave behind when nothing raises.
  function Final(e: Script, i: nat, s: State): State
    requires i <= e.count
    decreases e.count - i
  {
    if i == e.count then s
    else if Halts(e, e.result(i)) then AfterStep(e, i, s)
    else Final(e, i + 1, AfterStep(e, i, s))
  }

  predicate Calm(e: Script, i: nat, s: State)
    requires i <= e.count
    decreases e.count - i
  {
    i < e.count ==> e.known(i) && !Raises(e.p, s, e.io(i)) && Calm(e, i + 1, AfterStep(e, i, s))
  }

  lemma {:induction false} CalmOutcome(e: Script, i: nat, s: State)
    requires i <= e.count && Calm(e, i, s)
    ensures Executed(e, i, s) == Outcome(Final(e, i, s), Results(e, i), false)
    decreases e.count - i
  {
    if i < e.count {
      CalmOutcome(e, i + 1, AfterStep(e, i, s));
    }
  }

  lemma StepSynced(e: Script, i: nat, s: State, log: seq<Dict>) returns (s': State, log': seq<Dict>)
    requires i < e.count && AllV2(e) && InSync(e.p, s, log) && Quiet(e, i, s)
    ensures s' == AfterStep(e, i, s) && log' == Extended(e.p, log, e.record(i), e.io(i))
    ensures !Raises(e.p, s, e.io(i)) && Lands(e.io(i)) && e.known(i)
    ensures Quiet(e, i + 1, s') && InSync(e.p, s', log')
  {
    LoadSyncs(e.p, s, e.io(i), log);
    WriteSyncs(e.p, e.rotateBytes, s, e.record(i), e.io(i), log);
    s', log' := AfterStep(e, i, s), Extended(e.p, log, e.record(i), e.io(i));
  }

  // What every quiet step keeps true of the state and the log it stands for, and with which it never raises.
  ghost predicate Invariant(e: Script, inv: (State, seq<Dict>) -> bool) {
    forall i: nat, s, log :: i < e.count && inv(s, log) && Quiet(e, i, s) ==>
      !Raises(e.p, s, e.io(i)) && inv(AfterStep(e, i, s), Extended(e.p, log, e.record(i), e.io(i)))
  }

  // The log after the receipts of the steps from i on.
  function LogAfter(e: Script, i: nat, log: seq<Dict>): seq<Dict>
    requires i <= e.count
  {
    Journal(e.p, log, Receipts(e, i, |Results(e, i)|))
  }

  lemma LogAfterStep(e: Script, i: nat, log: seq<Dict>)
    requires i < e.count && Lands(e.io(i))
    ensures var log' := Extended(e.p, log, e.record(i), e.io(i));
            LogAfter(e, i, log) == if Halts(e, e.result(i)) then log' else LogAfter(e, i + 1, log')
  {
    if Halts(e, e.result(i)) {
      JournalCons(e.p, log, e.record(i), []);
      assert Receipts(e, i, 1) == [e.record(i)] + [];
    } else {
      JournalCons(e.p, log, e.record(i), Receipts(e, i + 1, |Results(e, i + 1)|));
    }
  }

  lemma LogAfterNothing(e: Script, log: seq<Dict>)
    ensures LogAfter(e, e.count, log) == log
  {
    assert Receipts(e, e.count, 0) == [];
  }

  lemma {:induction false} QuietRun(e: Script, inv: (State, seq<Dict>) -> bool, i: nat, s: State, log: seq<Dict>)
    requires i <= e.count && Invariant(e, inv) && inv(s, log) && Quiet(e, i, s)
    ensures Calm(e, i, s) && inv(Final(e, i, s), LogAfter(e, i, log))
    decreases e.count - i
  {
    if i == e.count {
      LogAfterNothing(e, log);
    } else {
      QuietRun(e, inv, i + 1, AfterStep(e, i, s), Extended(e.p, log, e.record(i), e.io(i)));
      LogAfterStep(e, i, log);
    }
  }

  lemma SyncIsInvariant(e: Script, inv: (State, seq<Dict>) -> bool)
    requires AllV2(e) && forall s, log :: inv(s, log) <==> InSync(e.p, s, log)
    ensures Invariant(e, inv)
  {
    forall i: nat, s, log | i < e.count && inv(s, log) && Quiet(e, i, s)
      ensures !Raises(e.p, s, e.io(i)) && inv(AfterStep(e, i, s), Extended(e.p, log, e.record(i), e.io(i)))
    {
      var s', log' := StepSynced(e, i, s, log);
    }
  }

  lemma RecordsAreV2(p: Platform, rotateBytes: int, x: Execution)
    ensures AllV2(ScriptOf(p, rotateBytes, x))
  {
  }

  // What the auditor finds after `results`, on a log that held `log` before.
  ghost predicate Audited(e: Script, log: seq<Dict>, results: seq<StepResult>, paths: seq<LogFile>) {
    && Verified(e.p, paths) == Verdict(true, |log| + |results|, None, None, [])
    && Records(paths) == Journal(e.p, log, Receipts(e, 0, |results|))
  }

  lemma FinalAudited(e: Script, s: State, log: seq<Dict>, paths: seq<LogFile>)
    requires InSync(e.p, Final(e, 0, s), LogAfter(e, 0, log)) && multiset(paths) == multiset(DiskFiles(Final(e, 0, s)))
    ensures Audited(e, log, Results(e, 0), paths)
  {
    SyncedVerifies(e.p, Final(e, 0, s), LogAfter(e, 0, log), paths);
    JournalLength(e.p, log, Receipts(e, 0, |Results(e, 0)|));
  }

  // Exactly one receipt per result, in step order, on a log the auditor still accepts.
  lemma RunLeavesReceipts(e: Script, x: Execution, s: State, log: seq<Dict>, paths: seq<LogFile>)
    requires e == ScriptOf(e.p, e.rotateBytes, x)
    requires InSync(e.p, s, log) && Quiet(e, 0, s)
    requires multiset(paths) == multiset(DiskFiles(Executed(e, 0, s).state))
    ensures !Executed(e, 0, s).raised && Executed(e, 0, s).results == Results(e, 0)
    ensures Audited(e, log, Results(e, 0), paths)
  {
    RecordsAreV2(e.p, e.rotateBytes, x);
    var inv := (s, log) => InSync(e.p, s, log);
    SyncIsInvariant(e, inv);
    QuietRun(e, inv, 0, s, log);
    CalmOutcome(e, 0, s);
    FinalAudited(e, s, log, paths);
  }

  // ---------------------------------------------------------------- what a receipt says

  // A payload is named by at most 16 characters of the SHA-256 of its canonical text.
  predicate Fingerprints(p: Platform, text: string, payload: Dict) {
    var whole := p.sha256(Print(JObj(payload)));
    text <= whole && |text| == if |whole| < 16 then |whole| else 16
  }

  // The receipt of one step: which goal and step, how it ended, and fingerprints of what went in and out.
  predicate Tells(p: Platform, record: Dict, goalId: string, index: nat, specialist: string, input: Dict,
      status: string, output: Dict)
  {
    && "event_type" in record && record["event_type"] == JStr("planner_step")
    && "outcome" in record && record["outcome"] == JStr(if status == "ok" then "ok" else "error")
    && "event_payload" in record && record["event_payload"].JObj?
    && PayloadTells(p, record["event_payload"].fields, goalId, index, specialist, input, status, output)
  }

  predicate PayloadTells(p: Platform, payload: Dict, goalId: string, index: nat, specialist: string, input: Dict,
      status: string, output: Dict)
  {
    && "goalId" in payload && payload["goalId"] == JStr(goalId)
    && "stepIndex" in payload && payload["stepIndex"] == JInt(index)
    && "specialist" in payload && payload["specialist"] == JStr(specialist)
    && "status" in payload && payload["status"] == JStr(status)
    && "inputDigest" in payload && payload["inputDigest"].JStr? && Fingerprints(p, payload["inputDigest"].s, input)
    && "outputDigest" in payload && payload["outputDigest"].JStr? && Fingerprints(p, payload["outputDigest"].s, output)
  }

  lemma DigestFingerprints(p: Platform, payload: Option<Dict>)
    ensures Fingerprints(p, Digest(p, payload), match payload case None => map[] case Some(d) => d)
  {
  }

  lemma ReceiptPayloadTells(p: Platform, goalId: string, index: nat, step: PlanStep, r: StepResult, at: Planner.Stamp)
    ensures var payload := Receipt(p, goalId, index, step, r, at).payload;
            && payload != map[]
            && PayloadTells(p, payload, goalId, index, step.specialist, step.input, StatusText(r.status), OutputOf(r))
  {
    DigestFingerprints(p, Some(step.input));
    DigestFingerprints(p, r.output);
    assert Receipt(p, goalId, index, step, r, at).payload["goalId"] == JStr(goalId);
  }

  function OutputOf(r: StepResult): Dict { match r.output case None => map[] case Some(d) => d }

  lemma RecordTells(p: Platform, ctx: Context, v: Event, goalId: string, index: nat, specialist: string, input: Dict,
      status: string, output: Dict)
    requires v.eventType == "planner_step" && v.outcome == (if status == "ok" then "ok" else "error")
    requires v.payload != map[] && PayloadTells(p, v.payload, goalId, index, specialist, input, status, output)
    ensures Tells(p, RecordOf(p, ctx, v), goalId, index, specialist, input, status, output)
  {
    EventTypeKept(p, ctx, v);
    OutcomeKept(p, ctx, v);
    PayloadIff(p, ctx, v);
  }

  // Receipt k is the record of step k,
  lemma ReceiptIs(e: Script, n: nat, k: nat)
    requires k < n
    ensures Receipts(e, 0, n)[k] == e.record(k)
  {
    ReceiptsAt(e, 0, n, k);
  }

  // which says what step it is for and how that step ended.
  lemma ReceiptTells(p: Platform, x: Execution, k: nat)
    requires k < |x.steps|
    ensures var r := ResultAt(x, k);
            Tells(p, RecordAt(p, x, k), x.goalId, k, x.steps[k].specialist, x.steps[k].input, StatusText(r.status),
                  OutputOf(r))
  {
    var r, at := ResultAt(x, k), x.w.stamp(k);
    ReceiptPayloadTells(p, x.goalId, k, x.steps[k], r, at);
    OkText(r.status);
    RecordTells(p, at.ctx, Receipt(p, x.goalId, k, x.steps[k], r, at), x.goalId, k, x.steps[k].specialist,
        x.steps[k].input, StatusText(r.status), OutputOf(r));
  }

  lemma OkText(status: Status)
    ensures StatusText(status) == "ok" <==> status == StatusOk
  {
  }

  // What the log adds to a record is none of what a receipt says.
  lemma StampedTells(p: Platform, d: Dict, record: Dict, goalId: string, index: nat, specialist: string, input: Dict,
      status: string, output: Dict)
    requires SameContent(d, record) && Tells(p, record, goalId, index, specialist, input, status, output)
    ensures Tells(p, d, goalId, index, specialist, input, status, output)
  {
    SameField(d, record, "event_type");
    SameField(d, record, "outcome");
    SameField(d, record, "event_payload");
  }

  lemma SameField(d: Dict, e: Dict, key: string)
    requires SameContent(d, e) && key !in STAMPS
    ensures key in d <==> key in e
    ensures key in d ==> d[key] == e[key]
  {
    assert key in d <==> key in d - STAMPS;
    assert key in e <==> key in e - STAMPS;
  }

  // On disk: behind what the log held before, record k says what step k was and how it ended, in the words of the
  // trust receipt.
  lemma RunTellsSteps(e: Script, x: Execution, s: State, log: seq<Dict>, paths: seq<LogFile>, k: nat)
    requires e == ScriptOf(e.p, e.rotateBytes, x)
    requires InSync(e.p, s, log) && Quiet(e, 0, s)
    requires multiset(paths) == multiset(DiskFiles(Executed(e, 0, s).state))
    requires k < |Executed(e, 0, s).results|
    ensures |Records(paths)| == |log| + |Executed(e, 0, s).results| && k < |x.steps|
    ensures forall i :: 0 <= i < |log| ==> Records(paths)[i] == log[i]
    ensures var r := Executed(e, 0, s).results[k];
            var status := if r.status.StatusOk? then "ok" else if r.status.InputViolation? then "input_violation"
                          else if r.status.HandlerError? then "handler_error" else "output_violation";
            Tells(e.p, Records(paths)[|log| + k], x.goalId, k, x.steps[k].specialist, x.steps[k].input, status,
                  OutputOf(r))
  {
    RunLeavesReceipts(e, x, s, log, paths);
    var n := |Results(e, 0)|;
    JournalKeeps(e.p, log, Receipts(e, 0, n));
    ReceiptIs(e, n, k);
    ResultsShape(e, 0);
    assert Results(e, 0)[k] == e.result(0 + k);
    ReceiptTells(e.p, x, k);
    StampedTells(e.p, Records(paths)[|log| + k], RecordAt(e.p, x, k), x.goalId, k, x.steps[k].specialist,
        x.steps[k].input, StatusText(ResultAt(x, k).status), OutputOf(ResultAt(x, k)));
  }
}
