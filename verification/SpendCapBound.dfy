// How far the recorded spend of a month can go past the cap when dispatches overlap.
module SpendCapBound {
  import opened Wrappers
  import opened SpendCap

  function GuardedIn(e: Event, month: int): nat {
    if e.Cost? && !SkipsCheck(e.mode, e.provider, e.promptTokens) then MicroIn(e, month) else 0
  }

  // The month's spend of calls that went through the check.
  function SpentGuarded(history: seq<Event>, month: int): nat {
    if history == [] then 0
    else SpentGuarded(history[..|history| - 1], month) + GuardedIn(history[|history| - 1], month)
  }

  // The month's spend of calls that skipped it: free modes, and prompts too short to cost anything.
  function SpentUnguarded(history: seq<Event>, month: int): nat {
    if history == [] then 0
    else
      var e := history[|history| - 1];
      SpentUnguarded(history[..|history| - 1], month) + (MicroIn(e, month) - GuardedIn(e, month))
  }

  lemma {:induction false} SpentSplits(history: seq<Event>, month: int)
    ensures Spent(history, month) == SpentGuarded(history, month) + SpentUnguarded(history, month)
  {
    if history != [] { SpentSplits(history[..|history| - 1], month); }
  }

  lemma AppendGuarded(history: seq<Event>, e: Event, month: int)
    ensures SpentGuarded(history + [e], month) == SpentGuarded(history, month) + GuardedIn(e, month)
  {
    assert (history + [e])[..|history|] == history;
  }

  lemma {:induction false} SpentConcat(a: seq<Event>, b: seq<Event>, month: int)
    ensures Spent(a + b, month) == Spent(a, month) + Spent(b, month)
    ensures forall e: Event :: Spent([e], month) == if e.Cost? && e.month == month then e.micro else 0
  {
    forall e: Event ensures Spent([e], month) == if e.Cost? && e.month == month then e.micro else 0 {
      assert [e][..0] == [];
    }
    if b == [] {
      assert a + b == a;
    } else {
      assert (a + b)[..|a + b| - 1] == a + b[..|b| - 1];
      SpentConcat(a, b[..|b| - 1], month);
    }
  }

  // The check sees the month's spend if and only if none of it has left the window of newest events.
  lemma CheckSeesAllIff(history: seq<Event>, month: int)
    ensures MonthToDate(history, month) + Spent(Forgotten(history), month) == Spent(history, month)
    ensures MonthToDate(history, month) == Spent(history, month) <==> Spent(Forgotten(history), month) == 0
  {
    assert Forgotten(history) + Newest(history) == history;
    SpentConcat(Forgotten(history), Newest(history), month);
  }

  // ---------------------------------------------------------------- calls in flight

  function Guarded(flights: seq<Call>): nat {
    if flights == [] then 0 else Guarded(flights[1..]) + if Unguarded(flights[0]) then 0 else 1
  }

  // What the checked calls in flight can still add, with at most c per answer.
  function Reserved(flights: seq<Call>, c: nat): nat {
    if flights == [] then 0 else Reserved(flights[1..], c) + if Unguarded(flights[0]) then 0
        else PromptCost(flights[0]) + c
  }

  lemma {:induction false} FlightsConcat(a: seq<Call>, b: seq<Call>, c: nat)
    ensures Guarded(a + b) == Guarded(a) + Guarded(b) && Reserved(a + b, c) == Reserved(a, c) + Reserved(b, c)
  {
    if a == [] {
      assert a + b == b;
    } else {
      assert (a + b)[1..] == a[1..] + b;
      FlightsConcat(a[1..], b, c);
    }
  }

  lemma FlightsAdd(flights: seq<Call>, call: Call, c: nat)
    ensures Guarded(flights + [call]) == Guarded(flights) + if Unguarded(call) then 0 else 1
    ensures Reserved(flights + [call], c) == Reserved(flights, c) + if Unguarded(call) then 0 else PromptCost(call) + c
  {
    FlightsConcat(flights, [call], c);
    assert [call][1..] == [];
  }

  lemma FlightsRemove(flights: seq<Call>, i: nat, c: nat)
    requires i < |flights|
    ensures Guarded(Without(flights, i)) + (if Unguarded(flights[i]) then 0 else 1) == Guarded(flights)
    ensures Reserved(Without(flights, i), c) + (if Unguarded(flights[i]) then 0 else PromptCost(flights[i]) + c)
        == Reserved(flights, c)
  {
    var rest := flights[i..];
    assert flights == flights[..i] + rest;
    assert rest[1..] == flights[i + 1..] && rest[0] == flights[i];
    FlightsConcat(flights[..i], rest, c);
    FlightsConcat(flights[..i], flights[i + 1..], c);
  }

  lemma {:induction false} ReservedBound(flights: seq<Call>, p: nat, c: nat)
    requires forall f :: f in flights && !Unguarded(f) ==> PromptCost(f) <= p
    ensures Reserved(flights, c) <= Guarded(flights) * (p + c)
  {
    if flights != [] {
      ReservedBound(flights[1..], p, c);
      OneMore(Guarded(flights[1..]), p + c);
    }
  }

  lemma OneMore(a: nat, n: nat)
    ensures (a + 1) * n == a * n + n
  {
  }

  // ---------------------------------------------------------------- runs

  // At most k checked calls in flight, no prompt above p, no answer above c, no configured cap above `cap`.
  datatype Limits = Limits(k: nat, p: nat, c: nat, cap: nat)

  function Bound(l: Limits): nat
    requires l.k >= 1
  {
    l.cap + l.c + (l.k - 1) * (l.p + l.c)
  }

  predicate Within(s: State, step: Step, l: Limits)
    requires Enabled(s, step)
  {
    match step
    case Begin(call, cap, _) =>
      && cap <= l.cap
      && (Unguarded(call) || PromptCost(call) <= l.p)
      && Guarded(Next(s, step).flights) <= l.k
    case End(i, Some(n), _) => Unguarded(s.flights[i]) || CallCost(s.flights[i], n) <= PromptCost(s.flights[i]) + l.c
    case _ => true
  }

  predicate LegalRun(s: State, steps: seq<Step>, l: Limits)
    decreases |steps|
  {
    steps != [] ==>
      && Enabled(s, steps[0]) && Within(s, steps[0], l)
      && LegalRun(Next(s, steps[0]), steps[1..], l)
  }

  lemma {:induction false} LegalIsPossible(s: State, steps: seq<Step>, l: Limits)
    requires LegalRun(s, steps, l)
    ensures Possible(s, steps)
    decreases |steps|
  {
    if steps != [] { LegalIsPossible(Next(s, steps[0]), steps[1..], l); }
  }

  // The month's spend that the check no longer sees.
  function Unseen(history: seq<Event>, month: int): nat { Spent(Forgotten(history), month) }

  ghost predicate Inv(s: State, l: Limits)
    requires l.k >= 1
  {
    && SpentGuarded(s.history, s.now) + Reserved(s.flights, l.c) <= Bound(l) + Unseen(s.history, s.now)
    && Reserved(s.flights, l.c) <= Bound(l)
    && (forall m :: SpentGuarded(s.history, m) <= Bound(l) + Unseen(s.history, m))
    && (forall m :: m > s.now ==> SpentGuarded(s.history, m) == 0)
    && (forall f :: f in s.flights && !Unguarded(f) ==> PromptCost(f) <= l.p)
  }

  // Spend once out of sight stays so.
  lemma UnseenGrows(history: seq<Event>, e: Event, month: int)
    ensures Unseen(history + [e], month) >= Unseen(history, month)
  {
    var longer := history + [e];
    if |longer| > WINDOW {
      var n := |longer| - WINDOW;
      if |history| > WINDOW {
        assert Forgotten(longer) == Forgotten(history) + [history[n - 1]];
        SpentConcat(Forgotten(history), [history[n - 1]], month);
      }
    }
  }

  // What appending an event does to a month.
  lemma AppendMonth(history: seq<Event>, e: Event, month: int)
    ensures SpentGuarded(history + [e], month) == SpentGuarded(history, month) + GuardedIn(e, month)
    ensures Unseen(history + [e], month) >= Unseen(history, month)
  {
    AppendGuarded(history, e, month);
    UnseenGrows(history, e, month);
  }

  lemma BeginFits(s: State, call: Call, cap: int, io: Io, l: Limits)
    requires l.k >= 1 && Inv(s, l) && Within(s, Begin(call, cap, io), l)
    requires Admitted(s.history, call, cap, s.now, io.readable) && !Unguarded(call)
    ensures SpentGuarded(s.history, s.now) + Reserved(s.flights, l.c) + PromptCost(call) + l.c <=
            Bound(l) + Unseen(s.history, s.now)
    ensures Reserved(s.flights, l.c) + PromptCost(call) + l.c <= Bound(l)
  {
    OthersFit(s, call, cap, io, l);
    CheckLeavesRoom(s.history, call, cap, s.now, io.readable);
  }

  // What the check promises of the calls it has gone through.
  lemma CheckLeavesRoom(history: seq<Event>, call: Call, cap: int, month: int, readable: bool)
    requires Admitted(history, call, cap, month, readable) && !Unguarded(call)
    ensures SpentGuarded(history, month) + PromptCost(call) <= cap + Unseen(history, month) && PromptCost(call) <= cap
  {
    CheckSeesAllIff(history, month);
    SpentSplits(history, month);
  }

  // What the other calls in flight can still add.
  lemma OthersFit(s: State, call: Call, cap: int, io: Io, l: Limits)
    requires l.k >= 1 && Inv(s, l) && Within(s, Begin(call, cap, io), l)
    requires Admitted(s.history, call, cap, s.now, io.readable) && !Unguarded(call)
    ensures Reserved(s.flights, l.c) <= (l.k - 1) * (l.p + l.c)
  {
    BeginCounts(s, call, cap, io, l);
    ReservedBound(s.flights, l.p, l.c);
    Scaled(Guarded(s.flights), l.k - 1, l.p + l.c);
  }

  lemma BeginCounts(s: State, call: Call, cap: int, io: Io, l: Limits)
    requires Within(s, Begin(call, cap, io), l)
    requires Admitted(s.history, call, cap, s.now, io.readable) && !Unguarded(call)
    ensures Guarded(s.flights) + 1 <= l.k
  {
    FlightsAdd(s.flights, call, l.c);
  }

  lemma BeginKeeps(s: State, call: Call, cap: int, io: Io, l: Limits)
    requires l.k >= 1 && Inv(s, l) && Within(s, Begin(call, cap, io), l)
    ensures Inv(Next(s, Begin(call, cap, io)), l)
  {
    var s' := Next(s, Begin(call, cap, io));
    if Admitted(s.history, call, cap, s.now, io.readable) {
      FlightsAdd(s.flights, call, l.c);
      if !Unguarded(call) { BeginFits(s, call, cap, io, l); }
    } else {
      forall m
        ensures SpentGuarded(s'.history, m) == SpentGuarded(s.history, m)
        ensures Unseen(s'.history, m) >= Unseen(s.history, m)
      {
        AppendMonth(s.history, RefusedCap(s.now), m);
      }
    }
  }

  lemma Scaled(a: nat, b: nat, n: nat)
    requires a <= b
    ensures a * n <= b * n
  {
  }

  lemma EndKeeps(s: State, i: nat, response: Option<nat>, saved: bool, l: Limits)
    requires l.k >= 1 && Inv(s, l) && i < |s.flights| && Within(s, End(i, response, saved), l)
    ensures Inv(Next(s, End(i, response, saved)), l)
  {
    var s' := Next(s, End(i, response, saved));
    var call := s.flights[i];
    FlightsRemove(s.flights, i, l.c);
    forall f | f in s'.flights ensures f in s.flights {}
    if saved {
      var chars := match response case None => 0 case Some(n) => n;
      var e := CostEvent(call, chars, s.now);
      assert GuardedIn(e, s.now) == if Unguarded(call) then 0 else CallCost(call, chars);
      forall m
        ensures SpentGuarded(s'.history, m) == SpentGuarded(s.history, m) + GuardedIn(e, m)
        ensures Unseen(s'.history, m) >= Unseen(s.history, m)
      {
        AppendMonth(s.history, e, m);
      }
    }
  }

  lemma NoteKeeps(s: State, l: Limits)
    requires l.k >= 1 && Inv(s, l)
    ensures Inv(Next(s, Note), l)
  {
    var s' := Next(s, Note);
    forall m
      ensures SpentGuarded(s'.history, m) == SpentGuarded(s.history, m)
      ensures Unseen(s'.history, m) >= Unseen(s.history, m)
    {
      AppendMonth(s.history, Unrelated(s.now), m);
    }
  }

  lemma StepKeeps(s: State, step: Step, l: Limits)
    requires l.k >= 1 && Inv(s, l) && Enabled(s, step) && Within(s, step, l)
    ensures Inv(Next(s, step), l)
  {
    match step
    case Begin(call, cap, io) => BeginKeeps(s, call, cap, io, l);
    case End(i, response, saved) => EndKeeps(s, i, response, saved, l);
    case Note => NoteKeeps(s, l);
    case Tick(month) =>
  }

  lemma {:induction false} RunKeeps(s: State, steps: seq<Step>, l: Limits)
    requires l.k >= 1 && Inv(s, l) && LegalRun(s, steps, l) && Possible(s, steps)
    ensures Inv(Run(s, steps), l)
    decreases |steps|
  {
    if steps != [] {
      StepKeeps(s, steps[0], l);
      RunKeeps(Next(s, steps[0]), steps[1..], l);
    }
  }

  // Whatever the interleaving, what a month records is at most the cap, the answer of the call checked
  // last, the full cost of the other calls then in flight, the spend that never was checked, and what has
  // left the window the check looks at.
  lemma SpendIsBounded(steps: seq<Step>, l: Limits, month: int)
    requires l.k >= 1 && LegalRun(START, steps, l)
    ensures Possible(START, steps)
    ensures var h := Run(START, steps).history;
            Spent(h, month) <= Bound(l) + SpentUnguarded(h, month) + Unseen(h, month)
  {
    LegalIsPossible(START, steps, l);
    RunKeeps(START, steps, l);
    SpentSplits(Run(START, steps).history, month);
  }

  // Calls made one after another overshoot by one answer at most.
  lemma SerialSpendIsBounded(steps: seq<Step>, p: nat, c: nat, cap: nat, month: int)
    requires LegalRun(START, steps, Limits(1, p, c, cap))
    ensures Possible(START, steps)
    ensures var h := Run(START, steps).history; Spent(h, month) <= cap + c + SpentUnguarded(h, month) + Unseen(h, month)
  {
    SpendIsBounded(steps, Limits(1, p, c, cap), month);
  }

  // A refused call adds nothing to any month.
  lemma RefusalCostsNothing(s: State, call: Call, cap: int, io: Io, month: int)
    requires !Admitted(s.history, call, cap, s.now, io.readable)
    ensures Spent(Next(s, Begin(call, cap, io)).history, month) == Spent(s.history, month)
    ensures Next(s, Begin(call, cap, io)).flights == s.flights
  {
    SpentConcat(s.history, [RefusedCap(s.now)], month);
    assert Spent([RefusedCap(s.now)][..0], month) == 0;
  }

  // ---------------------------------------------------------------- the bound is exact

  function Times(step: Step, n: nat): seq<Step> {
    if n == 0 then [] else [step] + Times(step, n - 1)
  }

  function Calls(call: Call, n: nat): seq<Call> {
    if n == 0 then [] else [call] + Calls(call, n - 1)
  }

  lemma {:induction false} CallsEnd(call: Call, n: nat)
    ensures Calls(call, n) + [call] == Calls(call, n + 1)
    ensures forall f :: f in Calls(call, n) ==> f == call
    ensures Guarded(Calls(call, n)) == if Unguarded(call) then 0 else n
  {
    if n > 0 { CallsEnd(call, n - 1); }
  }

  lemma {:induction false} RunConcat(s: State, a: seq<Step>, b: seq<Step>, l: Limits)
    requires LegalRun(s, a, l) && Possible(s, a) && LegalRun(Run(s, a), b, l)
    ensures LegalRun(s, a + b, l)
    ensures Possible(s, a + b) && Possible(Run(s, a), b) && Run(s, a + b) == Run(Run(s, a), b)
    decreases |a|
  {
    if a == [] {
      assert a + b == b;
      LegalIsPossible(s, b, l);
    } else {
      assert (a + b)[1..] == a[1..] + b;
      RunConcat(Next(s, a[0]), a[1..], b, l);
    }
  }

  const WORKING := Io(true, true, true)

  // The run that shows it: k equal calls are checked before any of them is recorded.
  function Burst(call: Call, answer: nat, k: nat): seq<Step> {
    Times(Begin(call, PromptCost(call), WORKING), k) + Times(End(0, Some(answer), true), k)
  }

  function BurstLimits(call: Call, answer: nat, k: nat): Limits {
    Limits(k, PromptCost(call), CallCost(call, answer) - PromptCost(call), PromptCost(call))
  }

  lemma BeginOne(call: Call, answer: nat, k: nat, begun: nat)
    requires !Unguarded(call) && begun < k
    ensures var s, step := State([], Calls(call, begun), 0), Begin(call, PromptCost(call), WORKING);
            Within(s, step, BurstLimits(call, answer, k)) && Next(s, step) == State([], Calls(call, begun + 1), 0)
  {
    CallsEnd(call, begun);
    CallsEnd(call, begun + 1);
  }

  lemma {:induction false} BeginAll(call: Call, answer: nat, k: nat, begun: nat, n: nat)
    requires !Unguarded(call) && begun + n == k
    ensures var s := State([], Calls(call, begun), 0);
            var steps := Times(Begin(call, PromptCost(call), WORKING), n);
            && LegalRun(s, steps, BurstLimits(call, answer, k)) && Possible(s, steps)
            && Run(s, steps) == State([], Calls(call, k), 0)
    decreases n
  {
    if n > 0 {
      var step := Begin(call, PromptCost(call), WORKING);
      BeginOne(call, answer, k, begun);
      assert Times(step, n)[1..] == Times(step, n - 1);
      BeginAll(call, answer, k, begun + 1, n - 1);
    }
  }

  lemma EndOne(call: Call, answer: nat, history: seq<Event>, n: nat)
    requires n > 0
    ensures var step := End(0, Some(answer), true);
            && Enabled(State(history, Calls(call, n), 0), step)
            && Next(State(history, Calls(call, n), 0), step) ==
               State(history + [CostEvent(call, answer, 0)], Calls(call, n - 1), 0)
            && Calls(call, n)[0] == call
    ensures Spent(history + [CostEvent(call, answer, 0)], 0) == Spent(history, 0) + CallCost(call, answer)
  {
    assert Without(Calls(call, n), 0) == Calls(call, n - 1);
    assert (history + [CostEvent(call, answer, 0)])[..|history|] == history;
  }

  lemma OneLess(n: nat, cost: nat)
    requires n > 0
    ensures n * cost == cost + (n - 1) * cost
  {
  }

  lemma {:induction false} EndAll(call: Call, answer: nat, k: nat, history: seq<Event>, n: nat)
    requires !Unguarded(call)
    ensures var s := State(history, Calls(call, n), 0);
            var steps := Times(End(0, Some(answer), true), n);
            && LegalRun(s, steps, BurstLimits(call, answer, k)) && Possible(s, steps)
            && Spent(Run(s, steps).history, 0) == Spent(history, 0) + n * CallCost(call, answer)
    decreases n
  {
    if n > 0 {
      var step := End(0, Some(answer), true);
      EndOne(call, answer, history, n);
      assert Times(step, n)[1..] == Times(step, n - 1);
      EndAll(call, answer, k, history + [CostEvent(call, answer, 0)], n - 1);
      OneLess(n, CallCost(call, answer));
    }
  }

  // For every k and every checked call the bound is reached, so no smaller one holds.
  lemma BoundIsReached(call: Call, answer: nat, k: nat)
    requires !Unguarded(call) && k >= 1
    ensures var steps := Burst(call, answer, k);
            && LegalRun(START, steps, BurstLimits(call, answer, k)) && Possible(START, steps)
            && Spent(Run(START, steps).history, 0) == Bound(BurstLimits(call, answer, k))
  {
    var l := BurstLimits(call, answer, k);
    var begins, ends := Times(Begin(call, PromptCost(call), WORKING), k), Times(End(0, Some(answer), true), k);
    BeginAll(call, answer, k, 0, k);
    EndAll(call, answer, k, [], k);
    RunConcat(START, begins, ends, l);
    OneMore(k - 1, CallCost(call, answer));
  }

  // ---------------------------------------------------------------- what the cap does not stop

  // A prompt is too short for the check exactly when its price rounds to nothing.
  lemma UncheckedIff(c: Call)
    ensures Unguarded(c) <==> FreeMode(c.mode) || CharsToTokens(c.promptChars) * RatesOf(c.provider).prompt <= 50
  {
  }

  // Whatever was spent and whatever the cap, such calls are admitted, and their answers are paid for.
  lemma UncheckedIsAdmitted(s: State, c: Call, cap: int, io: Io)
    requires Unguarded(c) && io.costSaved
    ensures Admitted(s.history, c, cap, s.now, io.readable)
    ensures forall answer ::
              Spent(Ended(s.history, c, Some(answer), s.now, true), s.now) ==
              Spent(s.history, s.now) + CallCost(c, answer)
  {
    forall answer: nat
      ensures Spent(Ended(s.history, c, Some(answer), s.now, true), s.now) ==
              Spent(s.history, s.now) + CallCost(c, answer)
    {
      var e := CostEvent(c, answer, s.now);
      assert (s.history + [e])[..|s.history|] == s.history;
    }
  }

  // A call in a free mode is recorded with no cost if and only if both its prices round to nothing.
  lemma FreeModeIsFreeIff(c: Call, answer: nat, month: int)
    requires FreeMode(c.mode)
    ensures Unguarded(c)
    ensures CostEvent(c, answer, month).micro == 0 <==>
              CharsToTokens(c.promptChars) * RatesOf(c.provider).prompt <= 50
              && CharsToTokens(answer) * RatesOf(c.provider).completion <= 50
  {
    RoundsToNothingIff(CharsToTokens(c.promptChars) * RatesOf(c.provider).prompt);
    RoundsToNothingIff(CharsToTokens(answer) * RatesOf(c.provider).completion);
  }

  lemma RoundsToNothingIff(n: nat)
    ensures RoundHundredths(n) == 0 <==> n <= 50
  {
  }

  // Of the provider and mode pairs the settings accept,
  predicate Configurable(provider: string, mode: string) {
    match provider
    case "manual" => mode == "manual"
    case "openai" => mode == "api"
    case "anthropic" => mode == "api" || mode == "cli"
    case "google_gemini" => mode == "api"
    case "deepseek" => mode == "api"
    case "openrouter" => mode == "api"
    case "ollama" => mode == "local_http"
    case "codex_cli" => mode == "cli"
    case "claude_code" => mode == "cli"
    case "custom" => mode == "api" || mode == "cli" || mode == "local_http"
    case "managed" => mode == "api"
    case _ => false
  }

  // it is the custom provider over local HTTP whose free calls are recorded at a price.
  lemma FreeModeChargesCustomOnly(c: Call, answer: nat, month: int)
    requires Configurable(c.provider, c.mode) && FreeMode(c.mode) && CostEvent(c, answer, month).micro > 0
    ensures c.provider == "custom" && c.mode == "local_http"
  {
  }

  lemma FreeModeIsCharged()
    ensures var c := Call("custom", "local_http", 4000);
            Configurable(c.provider, c.mode) && Unguarded(c) && CostEvent(c, 0, 0).micro == 2300
  {
  }

  lemma {:induction false} NotesCostNothing(notes: seq<Event>, month: int)
    requires forall e :: e in notes ==> !e.Cost?
    ensures Spent(notes, month) == 0
  {
    if notes != [] { NotesCostNothing(notes[..|notes| - 1], month); }
  }

  lemma NewestAreNotes(history: seq<Event>, notes: seq<Event>)
    requires |notes| >= WINDOW
    ensures forall e :: e in Newest(history + notes) ==> e in notes
  {
    var all := history + notes;
    forall e | e in Newest(all) ensures e in notes {
      var i :| 0 <= i < |Newest(all)| && Newest(all)[i] == e;
      assert e == all[|all| - |Newest(all)| + i];
    }
  }

  // Enough other events push the month's spend out of the window: then everything is admitted again.
  lemma OldSpendIsForgotten(history: seq<Event>, notes: seq<Event>, c: Call, cap: int, month: int)
    requires |notes| >= WINDOW && (forall e :: e in notes ==> !e.Cost?) && PromptCost(c) <= cap
    ensures MonthToDate(history + notes, month) == 0 && Spent(history + notes, month) == Spent(history, month)
    ensures Admitted(history + notes, c, cap, month, true)
  {
    NewestAreNotes(history, notes);
    NotesCostNothing(Newest(history + notes), month);
    NotesCostNothing(notes, month);
    SpentConcat(history, notes, month);
  }
}
