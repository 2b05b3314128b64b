// What the record of an event says: which value is hashed, what gives way to what, and which fields appear.
module AuditRecords {
  import opened Wrappers
  import opened CanonicalJson
  import opened AuditChain
  import opened AuditEmitter

  predicate Given(v: Option<string>) { v.Some? && v.value != "" }

  // An identifier is logged in its hashed form: the explicit one, else that of the context, else `null`.
  predicate Identifies(p: Platform, field: Json, explicit: Option<string>, context: Option<string>) {
    && (Given(explicit) ==> field == JStr(p.hashId(explicit.value)))
    && (!Given(explicit) && context.Some? ==> field == JStr(p.hashId(context.value)))
    && (!Given(explicit) && context.None? ==> field == JNull)
  }

  // An optional text is there exactly when it is given.
  predicate TextIffGiven(d: Dict, key: string, v: Option<string>) {
    (key in d <==> v.Some?) && (v.Some? ==> key in d && d[key] == JStr(v.value))
  }

  predicate IntIffGiven(d: Dict, key: string, v: Option<int>) {
    (key in d <==> v.Some?) && (v.Some? ==> key in d && d[key] == JInt(v.value))
  }

  // ---------------------------------------------------------------- fields of every record

  lemma BaseKept(p: Platform, ctx: Context, e: Event, key: string)
    requires key in BaseRecord(p, ctx, e) && forall i :: 0 <= i < |Optional(ctx, e)| ==> Optional(ctx, e)[i].key != key
    ensures key in RecordOf(p, ctx, e) && RecordOf(p, ctx, e)[key] == BaseRecord(p, ctx, e)[key]
  {
    WithAllKeeps(BaseRecord(p, ctx, e), Optional(ctx, e), key);
  }

  lemma EventTypeKept(p: Platform, ctx: Context, e: Event)
    ensures "event_type" in RecordOf(p, ctx, e) && RecordOf(p, ctx, e)["event_type"] == JStr(e.eventType)
  {
    BaseKept(p, ctx, e, "event_type");
  }

  lemma OutcomeKept(p: Platform, ctx: Context, e: Event)
    ensures "outcome" in RecordOf(p, ctx, e) && RecordOf(p, ctx, e)["outcome"] == JStr(e.outcome)
  {
    BaseKept(p, ctx, e, "outcome");
  }

  lemma EventIdKept(p: Platform, ctx: Context, e: Event)
    ensures "event_id" in RecordOf(p, ctx, e) && RecordOf(p, ctx, e)["event_id"] == JStr(e.eventId)
  {
    BaseKept(p, ctx, e, "event_id");
  }

  lemma TimestampKept(p: Platform, ctx: Context, e: Event)
    ensures "timestamp" in RecordOf(p, ctx, e) && RecordOf(p, ctx, e)["timestamp"] == JStr(e.timestamp)
  {
    BaseKept(p, ctx, e, "timestamp");
  }

  lemma DurationKept(p: Platform, ctx: Context, e: Event)
    ensures "duration_ms" in RecordOf(p, ctx, e) && RecordOf(p, ctx, e)["duration_ms"] == JInt(e.durationMs)
  {
    BaseKept(p, ctx, e, "duration_ms");
  }

  // Type, identifier, time, duration and outcome are those of the event.
  lemma EventIsRecorded(p: Platform, ctx: Context, e: Event)
    ensures var d := RecordOf(p, ctx, e);
            && "event_type" in d && d["event_type"] == JStr(e.eventType)
            && "event_id" in d && d["event_id"] == JStr(e.eventId)
            && "timestamp" in d && d["timestamp"] == JStr(e.timestamp)
            && "duration_ms" in d && d["duration_ms"] == JInt(e.durationMs)
            && "outcome" in d && d["outcome"] == JStr(e.outcome)
  {
    EventTypeKept(p, ctx, e);
    EventIdKept(p, ctx, e);
    TimestampKept(p, ctx, e);
    DurationKept(p, ctx, e);
    OutcomeKept(p, ctx, e);
  }

  lemma UserIsHashed(p: Platform, ctx: Context, e: Event)
    ensures var d := RecordOf(p, ctx, e); "user_opaque_id" in d && Identifies(p, d["user_opaque_id"], e.user, ctx.user)
  {
    BaseKept(p, ctx, e, "user_opaque_id");
  }

  lemma SessionIsHashed(p: Platform, ctx: Context, e: Event)
    ensures var d := RecordOf(p, ctx, e);
            "session_opaque_id" in d && Identifies(p, d["session_opaque_id"], e.session, ctx.session)
  {
    BaseKept(p, ctx, e, "session_opaque_id");
  }

  lemma CallerIsNamed(p: Platform, ctx: Context, e: Event)
    ensures var d := RecordOf(p, ctx, e);
            && "caller" in d
            && (Given(e.caller) ==> d["caller"] == JStr(e.caller.value))
            && (!Given(e.caller) && Given(ctx.caller) ==> d["caller"] == JStr(ctx.caller.value))
            && (!Given(e.caller) && !Given(ctx.caller) ==> d["caller"] == JStr("system"))
  {
    BaseKept(p, ctx, e, "caller");
  }

  // No identifier is logged as it is: who did it, in which session and for whom, an explicit value before that of
  // the surrounding call and the user never mistaken for the session.
  lemma IdentifiersAreHashed(p: Platform, ctx: Context, e: Event)
    ensures var d := RecordOf(p, ctx, e);
            && "user_opaque_id" in d && Identifies(p, d["user_opaque_id"], e.user, ctx.user)
            && "session_opaque_id" in d && Identifies(p, d["session_opaque_id"], e.session, ctx.session)
            && "caller" in d
            && (Given(e.caller) ==> d["caller"] == JStr(e.caller.value))
            && (!Given(e.caller) && Given(ctx.caller) ==> d["caller"] == JStr(ctx.caller.value))
            && (!Given(e.caller) && !Given(ctx.caller) ==> d["caller"] == JStr("system"))
  {
    UserIsHashed(p, ctx, e);
    SessionIsHashed(p, ctx, e);
    CallerIsNamed(p, ctx, e);
  }

  // ---------------------------------------------------------------- optional fields

  ghost predicate Distinct(fields: seq<Field>) {
    forall i, j :: 0 <= i < j < |fields| ==> fields[i].key != fields[j].key
  }

  lemma {:induction false} WithAllSets(d: Dict, fields: seq<Field>, i: nat)
    requires Distinct(fields) && i < |fields| && fields[i].key !in d
    ensures fields[i].key in WithAll(d, fields) <==> fields[i].value.Some?
    ensures fields[i].value.Some? ==> WithAll(d, fields)[fields[i].key] == fields[i].value.value
    decreases |fields|
  {
    var d' := match fields[0].value case None => d case Some(v) => d[fields[0].key := v];
    if i == 0 {
      WithAllKeeps(d', fields[1..], fields[0].key);
    } else {
      WithAllSets(d', fields[1..], i - 1);
    }
  }

  lemma OptionalDistinct(ctx: Context, e: Event)
    ensures Distinct(Optional(ctx, e))
  {
  }

  lemma OptionalAt(p: Platform, ctx: Context, e: Event, i: nat)
    requires i < |Optional(ctx, e)| && Optional(ctx, e)[i].key !in BaseRecord(p, ctx, e)
    ensures var f := Optional(ctx, e)[i];
            && (f.key in RecordOf(p, ctx, e) <==> f.value.Some?)
            && (f.value.Some? ==> RecordOf(p, ctx, e)[f.key] == f.value.value)
  {
    OptionalDistinct(ctx, e);
    WithAllSets(BaseRecord(p, ctx, e), Optional(ctx, e), i);
  }

  lemma PhaseIff(p: Platform, ctx: Context, e: Event)
    ensures TextIffGiven(RecordOf(p, ctx, e), "journey_phase",
        if e.journeyPhase.Some? then e.journeyPhase else ctx.phase)
  {
    OptionalAt(p, ctx, e, 0);
  }

  lemma TemplateIff(p: Platform, ctx: Context, e: Event)
    ensures TextIffGiven(RecordOf(p, ctx, e), "prompt_template_id", e.promptTemplateId)
  {
    OptionalAt(p, ctx, e, 1);
  }

  lemma ProviderIff(p: Platform, ctx: Context, e: Event)
    ensures TextIffGiven(RecordOf(p, ctx, e), "ai_provider", e.aiProvider)
  {
    OptionalAt(p, ctx, e, 2);
  }

  lemma TokensInIff(p: Platform, ctx: Context, e: Event)
    ensures IntIffGiven(RecordOf(p, ctx, e), "tokens_in", e.tokensIn)
  {
    OptionalAt(p, ctx, e, 3);
  }

  lemma TokensOutIff(p: Platform, ctx: Context, e: Event)
    ensures IntIffGiven(RecordOf(p, ctx, e), "tokens_out", e.tokensOut)
  {
    OptionalAt(p, ctx, e, 4);
  }

  lemma ErrorIff(p: Platform, ctx: Context, e: Event)
    ensures TextIffGiven(RecordOf(p, ctx, e), "error_class", e.errorClass)
  {
    OptionalAt(p, ctx, e, 5);
  }

  lemma PayloadIff(p: Platform, ctx: Context, e: Event)
    ensures var d := RecordOf(p, ctx, e);
            && ("event_payload" in d <==> e.payload != map[])
            && ("event_payload" in d ==> d["event_payload"] == JObj(e.payload))
  {
    OptionalAt(p, ctx, e, 6);
  }

  // Every optional field appears exactly when it is given, with its value; an empty payload is left out.
  lemma OptionalIffGiven(p: Platform, ctx: Context, e: Event)
    ensures var d := RecordOf(p, ctx, e);
            && TextIffGiven(d, "journey_phase", if e.journeyPhase.Some? then e.journeyPhase else ctx.phase)
            && TextIffGiven(d, "prompt_template_id", e.promptTemplateId)
            && TextIffGiven(d, "ai_provider", e.aiProvider)
            && TextIffGiven(d, "error_class", e.errorClass)
            && IntIffGiven(d, "tokens_in", e.tokensIn)
            && IntIffGiven(d, "tokens_out", e.tokensOut)
            && ("event_payload" in d <==> e.payload != map[])
            && ("event_payload" in d ==> d["event_payload"] == JObj(e.payload))
  {
    PhaseIff(p, ctx, e);
    TemplateIff(p, ctx, e);
    ProviderIff(p, ctx, e);
    ErrorIff(p, ctx, e);
    TokensInIff(p, ctx, e);
    TokensOutIff(p, ctx, e);
    PayloadIff(p, ctx, e);
  }
}
