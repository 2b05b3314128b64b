// The deterministic planner: a goal becomes an ordered plan, the plan is executed step by step, and each
// step leaves one receipt in the audit chain.
module Planner {
  import opened Wrappers
  import opened CanonicalJson
  import opened AuditChain
  import opened AuditEmitter

  datatype Goal = Goal(goalId: string, persona: string, needs: seq<string>, context: Dict)

  datatype PlanStep = PlanStep(specialist: string, input: Dict)

  // `dict(v)` of what is no object, `list(v)` of what is no array (both may raise), whether a float has a
  // whole value, what a failed validation reports, and the text of the error for a missing handler.
  datatype Runtime = Runtime(dictOf: Json -> Option<Dict>, listOf: Json -> Option<seq<Json>>, whole: FloatText -> bool,
                             violation: (Json, Contract) -> string, noHandler: string -> string)

  const CANONICAL_ORDER: seq<string> :=
    ["cv_agent", "search_agent", "anerkennung_agent", "letter_agent", "housing_agent", "compliance_agent"]

  function SpecialistFor(need: string): Option<string> {
    match need
    case "cv" => Some("cv_agent")
    case "search" => Some("search_agent")
    case "anerkennung" => Some("anerkennung_agent")
    case "letter" => Some("letter_agent")
    case "housing" => Some("housing_agent")
    case "compliance" => Some("compliance_agent")
    case _ => None
  }

  // ---------------------------------------------------------------- contracts

  datatype Shape = TextShape | TextArray | ObjectShape | ObjectArray | TextOrInteger

  predicate Fits(rt: Runtime, v: Json, shape: Shape) {
    match shape
    case TextShape => v.JStr?
    case TextArray => v.JArr? && forall i :: 0 <= i < |v.items| ==> v.items[i].JStr?
    case ObjectShape => v.JObj?
    case ObjectArray => v.JArr? && forall i :: 0 <= i < |v.items| ==> v.items[i].JObj?
    case TextOrInteger => v.JStr? || v.JInt? || (v.JFloat? && rt.whole(v.text))
  }

  datatype Contract = Contract(properties: map<string, Shape>, required: set<string>)

  predicate Conforms(rt: Runtime, v: Json, c: Contract) {
    && v.JObj?
    && c.required <= v.fields.Keys
    && forall k :: k in c.properties && k in v.fields ==> Fits(rt, v.fields[k], c.properties[k])
  }

  function InputContract(specialist: string): Option<Contract> {
    match specialist
    case "cv_agent" =>
      Some(Contract(map["persona_slug" := TextShape, "target_lang" := TextShape, "prior_cv_text" := TextShape],
                    {"persona_slug", "target_lang"}))
    case "search_agent" =>
      Some(Contract(map["role" := TextShape, "location" := TextShape, "persona" := TextShape,
          "friction_class" := TextShape],
                    {"role", "location"}))
    case "anerkennung_agent" =>
      Some(Contract(map["persona_slug" := TextShape, "current_status" := TextShape, "target_profession" := TextShape],
                    {"persona_slug", "target_profession"}))
    case "letter_agent" =>
      Some(Contract(map["job" := ObjectShape, "profile" := ObjectShape, "friction_context" := TextShape],
          {"job", "profile"}))
    case "housing_agent" =>
      Some(Contract(map["user_consent_scope" := TextArray, "target_city" := TextShape,
          "employment_status" := TextShape],
                    {"user_consent_scope", "target_city"}))
    case "compliance_agent" =>
      Some(Contract(map["event_class" := TextShape, "user_opaque_id" := TextShape, "ai_output_ref" := TextShape],
                    {"event_class"}))
    case _ => None
  }

  function OutputContract(specialist: string): Option<Contract> {
    match specialist
    case "cv_agent" =>
      Some(Contract(map["cv_text" := TextShape, "cv_sections" := ObjectShape, "cv_export_paths" := TextArray,
                        "consent_log" := ObjectShape], {"cv_text", "cv_sections"}))
    case "search_agent" =>
      Some(Contract(map["discovered_jobs" := ObjectArray, "dedup_groups" := ObjectShape,
          "source_attribution" := ObjectShape],
                    {"discovered_jobs"}))
    case "anerkennung_agent" =>
      Some(Contract(map["recognition_steps" := ObjectArray, "missing_documents" := TextArray,
          "target_deadline" := TextShape,
                        "senatsverwaltung_url" := TextShape], {"recognition_steps", "missing_documents"}))
    case "letter_agent" =>
      Some(Contract(map["letter_text" := TextShape, "paragraph_edits" := ObjectArray,
          "regenerate_handles" := TextArray],
                    {"letter_text"}))
    case "housing_agent" =>
      Some(Contract(map["referral_payload" := ObjectShape, "partner_agent_uri" := TextShape], {"referral_payload"}))
    case "compliance_agent" =>
      Some(Contract(map["audit_log_entry_id" := TextOrInteger, "escalation_path" := TextShape,
          "retention_clock" := TextShape],
                    {"audit_log_entry_id", "escalation_path"}))
    case _ => None
  }

  // ---------------------------------------------------------------- plans

  function ContextText(p: Platform, ctx: Dict, key: string, default: string): Json {
    if key in ctx then JStr(Text(p, ctx[key])) else JStr(default)
  }

  function AsDict(rt: Runtime, v: Json): Option<Dict> { if v.JObj? then Some(v.fields) else rt.dictOf(v) }

  function AsList(rt: Runtime, v: Json): Option<seq<Json>> { if v.JArr? then Some(v.items) else rt.listOf(v) }

  function At(ctx: Dict, key: string, default: Json): Json { if key in ctx then ctx[key] else default }

  function Scope(rt: Runtime, goal: Goal): Option<seq<Json>> {
    AsList(rt, At(goal.context, "user_consent_scope", JArr([])))
  }

  // `None` when a conversion raises.
  function BuildInput(p: Platform, rt: Runtime, specialist: string, goal: Goal): Option<Dict> {
    var ctx := goal.context;
    match specialist
    case "cv_agent" =>
      Some(map["persona_slug" := JStr(goal.persona), "target_lang" := ContextText(p, ctx, "target_lang", "de")])
    case "search_agent" =>
      Some(map["role" := ContextText(p, ctx, "role", ""), "location" := ContextText(p, ctx, "location", ""),
               "persona" := JStr(goal.persona), "friction_class" := ContextText(p, ctx, "friction_class", "")])
    case "anerkennung_agent" =>
      Some(map["persona_slug" := JStr(goal.persona), "current_status" := ContextText(p, ctx, "current_status", ""),
               "target_profession" := ContextText(p, ctx, "target_profession", "")])
    case "letter_agent" =>
      (match (AsDict(rt, At(ctx, "job", JObj(map[]))),
              AsDict(rt, At(ctx, "profile", JObj(map["persona_slug" := JStr(goal.persona)]))))
       case (Some(job), Some(profile)) =>
         Some(map["job" := JObj(job), "profile" := JObj(profile),
                  "friction_context" := ContextText(p, ctx, "friction_context", "")])
       case _ => None)
    case "housing_agent" =>
      (match Scope(rt, goal)
       case Some(scope) =>
         Some(map["user_consent_scope" := JArr(scope), "target_city" := ContextText(p, ctx, "target_city", ""),
                  "employment_status" := ContextText(p, ctx, "employment_status", "")])
       case None => None)
    case "compliance_agent" =>
      Some(map["event_class" := ContextText(p, ctx, "event_class", "plan_closeout"),
               "user_opaque_id" := ContextText(p, ctx, "user_opaque_id", ""),
               "ai_output_ref" := ContextText(p, ctx, "ai_output_ref", goal.goalId)])
    case _ => None
  }

  function Wanted(needs: seq<string>): set<string> {
    set n | n in needs && SpecialistFor(n).Some? :: SpecialistFor(n).value
  }

  function StepsFor(p: Platform, rt: Runtime, order: seq<string>, goal: Goal): Option<seq<PlanStep>> {
    if order == [] then Some([])
    else if order[0] !in Wanted(goal.needs) then StepsFor(p, rt, order[1..], goal)
    else match BuildInput(p, rt, order[0], goal)
      case None => None
      case Some(input) =>
        match StepsFor(p, rt, order[1..], goal)
        case None => None
        case Some(rest) => Some([PlanStep(order[0], input)] + rest)
  }

  // `None` when building an input raises.
  function Decompose(p: Platform, rt: Runtime, goal: Goal): Option<seq<PlanStep>> {
    StepsFor(p, rt, CANONICAL_ORDER, goal)
  }

  // ---------------------------------------------------------------- execution

  datatype Status = StatusOk | InputViolation | HandlerError | OutputViolation

  // What a handler does with its input; it may itself raise a contract violation.
  datatype Answer = Returned(output: Json) | Raised(error: string) | Violated(inputSide: bool, detail: string)

  type Handlers = map<string, Dict -> Answer>

  datatype StepResult = StepResult(specialist: string, status: Status, output: Option<Dict>, receiptEmitted: bool,
      error: Option<string>)

  function Failed(specialist: string, status: Status, error: string): StepResult {
    StepResult(specialist, status, None, true, Some(error))
  }

  // The checked handler call of one step.
  function Perform(rt: Runtime, handlers: Handlers, step: PlanStep, input: Contract, output: Contract): StepResult {
    if !Conforms(rt, JObj(step.input), input) then
      Failed(step.specialist, InputViolation, rt.violation(JObj(step.input), input))
    else if step.specialist !in handlers then
      Failed(step.specialist, HandlerError, rt.noHandler(step.specialist))
    else match handlers[step.specialist](step.input)
      case Raised(error) => Failed(step.specialist, HandlerError, error)
      case Violated(inputSide, detail) =>
        Failed(step.specialist, if inputSide then InputViolation else OutputViolation, detail)
      case Returned(v) =>
        if Conforms(rt, v, output) then StepResult(step.specialist, StatusOk, Some(v.fields), true, None)
        else Failed(step.specialist, OutputViolation, rt.violation(v, output))
  }

  predicate Known(step: PlanStep) { InputContract(step.specialist).Some? && OutputContract(step.specialist).Some? }

  function ResultOf(rt: Runtime, handlers: Handlers, step: PlanStep): StepResult
    requires Known(step)
  {
    Perform(rt, handlers, step, InputContract(step.specialist).value, OutputContract(step.specialist).value)
  }

  function StatusText(s: Status): string {
    match s
    case StatusOk => "ok"
    case InputViolation => "input_violation"
    case HandlerError => "handler_error"
    case OutputViolation => "output_violation"
  }

  function Digest(p: Platform, payload: Option<Dict>): string {
    var d := p.sha256(Print(JObj(match payload case None => map[] case Some(m) => m)));
    if |d| <= 16 then d else d[..16]
  }

  // What the surroundings contribute to a receipt: identifiers, the clock and the caller context.
  datatype Stamp = Stamp(eventId: string, timestamp: string, ctx: Context)

  function Receipt(p: Platform, goalId: string, index: nat, step: PlanStep, r: StepResult, at: Stamp): Event {
    Event("planner_step", at.eventId, at.timestamp, None, None, None, 0,
          if r.status == StatusOk then "ok" else "error", None, None, None, None, None, None,
          map["goalId" := JStr(goalId), "stepIndex" := JInt(index), "specialist" := JStr(step.specialist),
              "status" := JStr(StatusText(r.status)), "inputDigest" := JStr(Digest(p, Some(step.input))),
              "outputDigest" := JStr(Digest(p, r.output))])
  }

  // The surroundings of each step.
  datatype World = World(stamp: nat -> Stamp, io: nat -> Io)

  // What is executed: the plan, its handlers and what surrounds it.
  datatype Execution = Execution(rt: Runtime, handlers: Handlers, goalId: string, steps: seq<PlanStep>, stop: bool,
      w: World)

  // An execution as the audit log sees it: of each step whether its specialist is known, its result and
  // the record of its receipt.
  datatype Script = Script(p: Platform, rotateBytes: int, count: nat, stop: bool, known: nat -> bool,
                           result: nat -> StepResult, record: nat -> Dict, io: nat -> Io)

  function ResultAt(x: Execution, i: nat): StepResult {
    if i < |x.steps| && Known(x.steps[i]) then ResultOf(x.rt, x.handlers, x.steps[i]) else Failed("", HandlerError, "")
  }

  function RecordAt(p: Platform, x: Execution, i: nat): Dict {
    if i < |x.steps| then
        RecordOf(p, x.w.stamp(i).ctx, Receipt(p, x.goalId, i, x.steps[i], ResultAt(x, i), x.w.stamp(i))) else map[]
  }

  function ScriptOf(p: Platform, rotateBytes: int, x: Execution): (e: Script)
    ensures forall i: nat :: e.known(i) == (i < |x.steps| && Known(x.steps[i]))
    ensures forall i: nat :: e.result(i) == ResultAt(x, i) && e.record(i) == RecordAt(p, x, i)
  {
    Script(p, rotateBytes, |x.steps|, x.stop, (i: nat) => i < |x.steps| && Known(x.steps[i]),
           (i: nat) => ResultAt(x, i), (i: nat) => RecordAt(p, x, i), x.w.io)
  }

  datatype Outcome = Outcome(state: State, results: seq<StepResult>, raised: bool)

  function AfterStep(e: Script, i: nat, s: State): State {
    Written(e.p, e.rotateBytes, s, e.record(i), e.io(i))
  }

  predicate Halts(e: Script, r: StepResult) { r.status != StatusOk && e.stop }

  function Ahead(done: seq<StepResult>, o: Outcome): Outcome { o.(results := done + o.results) }

  // Steps number i and later. An unknown specialist and a raising audit log end the run.
  function Executed(e: Script, i: nat, s: State): Outcome
    requires i <= e.count
    decreases e.count - i
  {
    if i == e.count then Outcome(s, [], false)
    else if !e.known(i) then Outcome(s, [], true)
    else if Raises(e.p, s, e.io(i)) then Outcome(AfterStep(e, i, s), [], true)
    else
      var s' := AfterStep(e, i, s);
      if Halts(e, e.result(i)) then Outcome(s', [e.result(i)], false)
      else Ahead([e.result(i)], Executed(e, i + 1, s'))
  }

  lemma AheadTwice(done: seq<StepResult>, r: StepResult, o: Outcome)
    ensures Ahead(done, Ahead([r], o)) == Ahead(done + [r], o)
  {
    assert done + ([r] + o.results) == (done + [r]) + o.results;
  }

  // `done` followed by what comes from step i on is the whole run.
  ghost predicate Agrees(e: Script, i: nat, s: State, done: seq<StepResult>, whole: Outcome) {
    i <= e.count && Ahead(done, Executed(e, i, s)) == whole
  }

  lemma AgreesAtStart(e: Script, s: State)
    ensures Agrees(e, 0, s, [], Executed(e, 0, s))
  {
    assert [] + Executed(e, 0, s).results == Executed(e, 0, s).results;
  }

  lemma AgreesAtEnd(e: Script, s: State, done: seq<StepResult>, whole: Outcome)
    requires Agrees(e, e.count, s, done, whole)
    ensures whole == Outcome(s, done, false)
  {
    assert done + [] == done;
  }

  lemma AgreesOnRaise(e: Script, i: nat, s: State, done: seq<StepResult>, whole: Outcome)
    requires Agrees(e, i, s, done, whole) && i < e.count
    requires !e.known(i) || Raises(e.p, s, e.io(i))
    ensures whole == Outcome(if e.known(i) then AfterStep(e, i, s) else s, done, true)
  {
    assert done + [] == done;
  }

  lemma AgreesOnStep(e: Script, i: nat, s: State, done: seq<StepResult>, whole: Outcome)
    requires Agrees(e, i, s, done, whole) && i < e.count
    requires e.known(i) && !Raises(e.p, s, e.io(i))
    ensures var r, s' := e.result(i), AfterStep(e, i, s);
            if Halts(e, r) then whole == Outcome(s', done + [r], false) else Agrees(e, i + 1, s', done + [r], whole)
  {
    if !Halts(e, e.result(i)) { AheadTwice(done, e.result(i), Executed(e, i + 1, AfterStep(e, i, s))); }
  }

  // ---------------------------------------------------------------- what a result means

  // The handler of the step is called.
  predicate Called(rt: Runtime, handlers: Handlers, step: PlanStep, input: Contract) {
    Conforms(rt, JObj(step.input), input) && step.specialist in handlers
  }

  // It returns an object that meets the output contract.
  predicate Delivers(rt: Runtime, handlers: Handlers, step: PlanStep, output: Contract)
    requires step.specialist in handlers
  {
    var answer := handlers[step.specialist](step.input);
    answer.Returned? && Conforms(rt, answer.output, output)
  }

  predicate Refuses(handlers: Handlers, step: PlanStep, inputSide: bool)
    requires step.specialist in handlers
  {
    var answer := handlers[step.specialist](step.input);
    answer.Violated? && answer.inputSide == inputSide
  }

  predicate Fails(handlers: Handlers, step: PlanStep)
    requires step.specialist in handlers
  {
    handlers[step.specialist](step.input).Raised?
  }

  // When each status occurs.
  predicate StatusExplained(rt: Runtime, handlers: Handlers, step: PlanStep, input: Contract, output: Contract,
      status: Status)
  {
    var called := Called(rt, handlers, step, input);
    && (status == StatusOk <==> called && Delivers(rt, handlers, step, output))
    && (status == InputViolation <==>
        !Conforms(rt, JObj(step.input), input) || (called && Refuses(handlers, step, true)))
    && (status == HandlerError <==>
        Conforms(rt, JObj(step.input), input) && (step.specialist !in handlers || Fails(handlers, step)))
    && (status == OutputViolation <==>
        called && (Refuses(handlers, step, false)
                   || (handlers[step.specialist](step.input).Returned? && !Delivers(rt, handlers, step, output))))
  }

  // What a step that failed reports: whatever was found first.
  predicate ErrorExplained(rt: Runtime, handlers: Handlers, step: PlanStep, input: Contract, output: Contract,
      error: string)
  {
    if !Conforms(rt, JObj(step.input), input) then error == rt.violation(JObj(step.input), input)
    else if step.specialist !in handlers then error == rt.noHandler(step.specialist)
    else match handlers[step.specialist](step.input)
      case Raised(what) => error == what
      case Violated(_, detail) => error == detail
      case Returned(v) => error == rt.violation(v, output)
  }

  // An ok result carries exactly the object the handler returned, any other result no output but an error.
  predicate Explained(rt: Runtime, handlers: Handlers, step: PlanStep, input: Contract, output: Contract,
      r: StepResult)
  {
    && r.specialist == step.specialist && r.receiptEmitted
    && StatusExplained(rt, handlers, step, input, output, r.status)
    && (r.status == StatusOk ==>
          && step.specialist in handlers && r.error == None && r.output.Some?
          && handlers[step.specialist](step.input) == Returned(JObj(r.output.value))
          && Conforms(rt, JObj(r.output.value), output))
    && (r.status != StatusOk ==>
          r.output == None && r.error.Some? && ErrorExplained(rt, handlers, step, input, output, r.error.value))
  }

  lemma PerformExplained(rt: Runtime, handlers: Handlers, step: PlanStep, input: Contract, output: Contract)
    ensures Explained(rt, handlers, step, input, output, Perform(rt, handlers, step, input, output))
  {
  }

  // The result belongs to step k of the plan, as its contracts and its handler have it.
  predicate ResultMeans(x: Execution, k: nat, r: StepResult)
    requires k < |x.steps|
  {
    && Known(x.steps[k])
    && Explained(x.rt, x.handlers, x.steps[k], InputContract(x.steps[k].specialist).value,
                 OutputContract(x.steps[k].specialist).value, r)
  }

  // The results are those of the first steps, each after a step that let the run go on; a run that does not
  // raise ends early only behind a failed step.
  ghost predicate Covers(e: Script, i: nat, o: Outcome) {
    && i + |o.results| <= e.count
    && (forall k :: 0 <= k < |o.results| ==> o.results[k] == e.result(i + k) && e.known(i + k))
    && (forall k :: 0 <= k < |o.results| - 1 ==> !Halts(e, o.results[k]))
    && (!o.raised && i + |o.results| < e.count ==> o.results != [] && Halts(e, o.results[|o.results| - 1]))
    && (o.raised ==> i + |o.results| < e.count)
  }

  lemma CoversAhead(e: Script, i: nat, o: Outcome)
    requires i < e.count && e.known(i) && !Halts(e, e.result(i)) && Covers(e, i + 1, o)
    ensures Covers(e, i, Ahead([e.result(i)], o))
  {
    var r := [e.result(i)] + o.results;
    forall k | 0 <= k < |r| ensures r[k] == e.result(i + k) && e.known(i + k) {
      if k > 0 { assert o.results[k - 1] == e.result(i + 1 + (k - 1)) && e.known(i + 1 + (k - 1)); }
    }
    forall k | 0 <= k < |r| - 1 ensures !Halts(e, r[k]) {
      if k > 0 { assert r[k] == o.results[k - 1]; }
    }
    assert o.results != [] ==> r[|r| - 1] == o.results[|o.results| - 1];
  }

  lemma {:induction false} ExecutedCovers(e: Script, i: nat, s: State)
    requires i <= e.count
    ensures Covers(e, i, Executed(e, i, s))
    decreases e.count - i
  {
    if i < e.count && e.known(i) && !Raises(e.p, s, e.io(i)) && !Halts(e, e.result(i)) {
      var s' := AfterStep(e, i, s);
      ExecutedCovers(e, i + 1, s');
      CoversAhead(e, i, Executed(e, i + 1, s'));
    }
  }

  lemma ResultAtMeans(x: Execution, k: nat, r: StepResult)
    requires k < |x.steps| && Known(x.steps[k]) && r == ResultAt(x, k)
    ensures ResultMeans(x, k, r)
  {
    PerformExplained(x.rt, x.handlers, x.steps[k], InputContract(x.steps[k].specialist).value,
        OutputContract(x.steps[k].specialist).value);
  }

  lemma ResultCovered(e: Script, o: Outcome, k: nat)
    requires Covers(e, 0, o) && k < |o.results|
    ensures k < e.count && o.results[k] == e.result(k) && e.known(k)
  {
    assert o.results[k] == e.result(0 + k) && e.known(0 + k);
  }

  // Result k of every execution, finished or cut short, told by contracts and handlers alone: its status is ok if
  // and only if the input of step k meets its contract and its handler is there and returns an object that meets
  // the output contract, which then is the result's output; otherwise the status names what went wrong, the error
  // says it, and there is no output.
  lemma ResultExplained(p: Platform, rotateBytes: int, x: Execution, s: State, k: nat)
    requires k < |Executed(ScriptOf(p, rotateBytes, x), 0, s).results|
    ensures k < |x.steps| && ResultMeans(x, k, Executed(ScriptOf(p, rotateBytes, x), 0, s).results[k])
  {
    var e := ScriptOf(p, rotateBytes, x);
    ExecutedCovers(e, 0, s);
    ResultCovered(e, Executed(e, 0, s), k);
    ResultAtMeans(x, k, Executed(e, 0, s).results[k]);
  }

  // How many results there are: a stopping run ends behind its first failed step, any other behind its last step
  // unless it raises.
  lemma ResultsEnd(p: Platform, rotateBytes: int, x: Execution, s: State)
    ensures var o := Executed(ScriptOf(p, rotateBytes, x), 0, s);
            && |o.results| <= |x.steps|
            && (forall k :: 0 <= k < |o.results| - 1 && x.stop ==> o.results[k].status == StatusOk)
            && (!o.raised && |o.results| < |x.steps| ==>
                  x.stop && o.results != [] && o.results[|o.results| - 1].status != StatusOk)
            && (o.raised ==> |o.results| < |x.steps|)
  {
    ExecutedCovers(ScriptOf(p, rotateBytes, x), 0, s);
  }

  // Every output contract asks for something: a handler that answers with nothing at all has violated it.
  lemma EmptyAnswerViolates(x: Execution, k: nat, r: StepResult)
    requires k < |x.steps| && ResultMeans(x, k, r)
    requires Called(x.rt, x.handlers, x.steps[k], InputContract(x.steps[k].specialist).value)
    requires x.handlers[x.steps[k].specialist](x.steps[k].input) == Returned(JObj(map[]))
    ensures r.status == OutputViolation && r.output == None
  {
    assert OutputContract(x.steps[k].specialist).value.required != {};
  }

  method EmitReceipt(x: Execution, i: nat, r: StepResult, audit: AuditLogEmitter) returns (raised: bool)
    requires i < |x.steps| && Known(x.steps[i]) && r == ResultAt(x, i)
    modifies audit
    ensures raised == Raises(audit.platform, old(audit.Abstract()), x.w.io(i))
    ensures audit.Abstract() ==
            AfterStep(ScriptOf(audit.platform, audit.rotateBytes, x), i, old(audit.Abstract()))
  {
    raised := audit.Emit(x.w.stamp(i).ctx, Receipt(audit.platform, x.goalId, i, x.steps[i], r, x.w.stamp(i)),
        x.w.io(i));
  }

  method Execute(x: Execution, audit: AuditLogEmitter) returns (results: seq<StepResult>, raised: bool)
    modifies audit
    ensures Outcome(audit.Abstract(), results, raised) ==
            Executed(ScriptOf(audit.platform, audit.rotateBytes, x), 0, old(audit.Abstract()))
  {
    results, raised := [], false;
    ghost var e := ScriptOf(audit.platform, audit.rotateBytes, x);
    ghost var whole := Executed(e, 0, audit.Abstract());
    AgreesAtStart(e, audit.Abstract());
    var i := 0;
    while i < |x.steps|
      invariant 0 <= i <= |x.steps| && !raised && Agrees(e, i, audit.Abstract(), results, whole)
    {
      ghost var s := audit.Abstract();
      if !Known(x.steps[i]) {
        AgreesOnRaise(e, i, s, results, whole);
        return results, true;
      }
      var r := ResultOf(x.rt, x.handlers, x.steps[i]);
      raised := EmitReceipt(x, i, r, audit);
      if raised {
        AgreesOnRaise(e, i, s, results, whole);
        return;
      }
      AgreesOnStep(e, i, s, results, whole);
      results := results + [r];
      if r.status != StatusOk && x.stop {
        return;
      }
      i := i + 1;
    }
    AgreesAtEnd(e, audit.Abstract(), results, whole);
  }

  method RunGoal(rt: Runtime, handlers: Handlers, goal: Goal, stop: bool, w: World, audit: AuditLogEmitter)
    returns (results: seq<StepResult>, raised: bool)
    modifies audit
    ensures match Decompose(audit.platform, rt, goal)
            case None => raised && results == [] && audit.Abstract() == old(audit.Abstract())
            case Some(steps) =>
              Outcome(audit.Abstract(), results, raised) ==
              Executed(ScriptOf(audit.platform, audit.rotateBytes,
                  Execution(rt, handlers, goal.goalId, steps, stop, w)),
                       0, old(audit.Abstract()))
  {
    match Decompose(audit.platform, rt, goal)
    case None => return [], true;
    case Some(steps) => results, raised := Execute(Execution(rt, handlers, goal.goalId, steps, stop, w), audit);
  }
}
