// The monthly spend cap: rates, the month's total, the check before a call and the record after it. Money
// is counted in millionths of a euro, rates in euro cents per million tokens.
module SpendCap {
  import opened Wrappers

  datatype Rates = Rates(prompt: nat, completion: nat)

  function RatesOf(provider: string): Rates {
    match provider
    case "openai" => Rates(230, 920)
    case "anthropic" => Rates(276, 1380)
    case "google_gemini" => Rates(115, 345)
    case "deepseek" => Rates(13, 25)
    case "openrouter" => Rates(230, 920)
    case "custom" => Rates(230, 920)
    case _ => Rates(0, 0)
  }

  function CharsToTokens(chars: nat): nat { (chars + 3) / 4 }

  // n hundredths to whole numbers, halves to the even neighbour.
  function RoundHundredths(n: nat): nat {
    var q, r := n / 100, n % 100;
    if r < 50 || (r == 50 && q % 2 == 0) then q else q + 1
  }

  function Micro(tokens: nat, centsPerMtok: nat): nat { RoundHundredths(tokens * centsPerMtok) }

  datatype Estimate = Estimate(provider: string, promptTokens: nat, completionTokens: nat, promptMicro: nat,
      completionMicro: nat)

  function Total(e: Estimate): nat { e.promptMicro + e.completionMicro }

  function EstimateCost(provider: string, promptChars: nat, responseChars: nat): Estimate {
    var p, c := CharsToTokens(promptChars), CharsToTokens(responseChars);
    Estimate(provider, p, c, Micro(p, RatesOf(provider).prompt), Micro(c, RatesOf(provider).completion))
  }

  // The whole number nearest to n hundredths, the even one of two.
  predicate Nearest(m: nat, n: nat) {
    n - 50 <= 100 * m <= n + 50 && (100 * m == n - 50 || 100 * m == n + 50 ==> m % 2 == 0)
  }

  lemma RoundsToNearest(n: nat)
    ensures Nearest(RoundHundredths(n), n)
  {
  }

  // A token stands for four characters begun.
  predicate Begins(tokens: nat, chars: nat) { 4 * tokens - 4 < chars <= 4 * tokens }

  lemma TokensBegin(chars: nat)
    ensures Begins(CharsToTokens(chars), chars)
  {
  }

  // Each half of an estimate is the price of its tokens rounded to the nearest, so the whole is within one millionth
  // of a euro of the exact price.
  lemma EstimateIsNear(provider: string, promptChars: nat, responseChars: nat)
    ensures var e, r := EstimateCost(provider, promptChars, responseChars), RatesOf(provider);
            && Begins(e.promptTokens, promptChars) && Begins(e.completionTokens, responseChars)
            && Nearest(e.promptMicro, e.promptTokens * r.prompt)
            && Nearest(e.completionMicro, e.completionTokens * r.completion)
            && -100 <= 100 * Total(e) - (e.promptTokens * r.prompt + e.completionTokens * r.completion) <= 100
  {
    var e, r := EstimateCost(provider, promptChars, responseChars), RatesOf(provider);
    TokensBegin(promptChars);
    TokensBegin(responseChars);
    RoundsToNearest(e.promptTokens * r.prompt);
    RoundsToNearest(e.completionTokens * r.completion);
  }

  // One analytics event of the user, with the calendar month it was created in.
  datatype Event =
    | Cost(month: int, provider: string, mode: string, promptTokens: nat, completionTokens: nat, micro: nat)
    | RefusedCap(month: int)
    | Unrelated(month: int)

  datatype Call = Call(provider: string, mode: string, promptChars: nat)

  const WINDOW: nat := 10000

  predicate FreeMode(mode: string) { mode == "local_http" || mode == "local_cli" || mode == "manual" }

  predicate SkipsCheck(mode: string, provider: string, promptTokens: nat) {
    FreeMode(mode) || Micro(promptTokens, RatesOf(provider).prompt) == 0
  }

  predicate Unguarded(c: Call) { SkipsCheck(c.mode, c.provider, CharsToTokens(c.promptChars)) }

  function PromptCost(c: Call): nat { Total(EstimateCost(c.provider, c.promptChars, 0)) }

  function CallCost(c: Call, responseChars: nat): nat { Total(EstimateCost(c.provider, c.promptChars, responseChars)) }

  // ---------------------------------------------------------------- the month's total

  function Newest(history: seq<Event>): seq<Event> {
    if |history| <= WINDOW then history else history[|history| - WINDOW..]
  }

  function Forgotten(history: seq<Event>): seq<Event> {
    if |history| <= WINDOW then [] else history[..|history| - WINDOW]
  }

  function MicroIn(e: Event, month: int): nat { if e.Cost? && e.month == month then e.micro else 0 }

  function Spent(history: seq<Event>, month: int): nat {
    if history == [] then 0 else Spent(history[..|history| - 1], month) + MicroIn(history[|history| - 1], month)
  }

  function MonthToDate(history: seq<Event>, month: int): nat { Spent(Newest(history), month) }

  function CostEvent(c: Call, responseChars: nat, month: int): Event {
    var e := EstimateCost(c.provider, c.promptChars, responseChars);
    Cost(month, c.provider, c.mode, e.promptTokens, e.completionTokens, Total(e))
  }

  // The record is of that call and month: one token for every four characters begun, and the price of both halves.
  ghost predicate Invoices(e: Event, c: Call, responseChars: nat, month: int) {
    && e.Cost? && e.month == month && e.provider == c.provider && e.mode == c.mode
    && Begins(e.promptTokens, c.promptChars) && Begins(e.completionTokens, responseChars)
    && exists p: nat, q: nat ::
         e.micro == p + q && Nearest(p, e.promptTokens * RatesOf(c.provider).prompt)
         && Nearest(q, e.completionTokens * RatesOf(c.provider).completion)
  }

  lemma CostInvoices(c: Call, responseChars: nat, month: int)
    ensures Invoices(CostEvent(c, responseChars, month), c, responseChars, month)
  {
    EstimateIsNear(c.provider, c.promptChars, responseChars);
  }

  predicate Admitted(history: seq<Event>, c: Call, cap: int, month: int, readable: bool) {
    Unguarded(c) || (readable && MonthToDate(history, month) + PromptCost(c) <= cap)
  }

  // What the analytics store answers during one dispatch.
  datatype Io = Io(readable: bool, refusalSaved: bool, costSaved: bool)

  function Begun(history: seq<Event>, c: Call, cap: int, month: int, io: Io): seq<Event> {
    if Admitted(history, c, cap, month, io.readable) || !io.refusalSaved then history
    else history + [RefusedCap(month)]
  }

  // The record is written whether or not the provider call failed; a failed call has an empty response.
  function Ended(history: seq<Event>, c: Call, response: Option<nat>, month: int, costSaved: bool): seq<Event> {
    if !costSaved then history
    else history + [CostEvent(c, match response case None => 0 case Some(n) => n, month)]
  }

  lemma SpentStep(history: seq<Event>, k: nat, month: int)
    requires k < |history|
    ensures Spent(history[..k + 1], month) == Spent(history[..k], month) + MicroIn(history[k], month)
  {
    assert history[..k + 1][..k] == history[..k];
  }

  class Ledger {
    var events: seq<Event>

    constructor ()
      ensures events == []
    {
      events := [];
    }

    // The store lists its newest events first.
    method MonthToDateMicro(month: int) returns (total: nat)
      ensures total == MonthToDate(events, month)
    {
      total := 0;
      var oldest := if |events| <= WINDOW then 0 else |events| - WINDOW;
      var k := |events|;
      ghost var window := Newest(events);
      assert window[..|events| - oldest] == window;
      while k > oldest
        invariant oldest <= k <= |events|
        invariant total + Spent(window[..k - oldest], month) == Spent(window, month)
        invariant window == events[oldest..]
      {
        k := k - 1;
        SpentStep(window, k - oldest, month);
        assert events[k] == window[k - oldest];
        match events[k]
        case Cost(m, _, _, _, _, micro) => if m == month { total := total + micro; }
        case _ =>
      }
    }

    method EnforceCap(c: Call, cap: int, month: int, readable: bool) returns (admitted: bool)
      ensures admitted == Admitted(events, c, cap, month, readable)
      ensures admitted <==>
                || c.mode == "local_http" || c.mode == "local_cli" || c.mode == "manual"
                || EstimateCost(c.provider, c.promptChars, 0).promptMicro == 0
                || (readable && MonthToDate(events, month) + PromptCost(c) <= cap)
    {
      var estimate := EstimateCost(c.provider, c.promptChars, 0);
      if FreeMode(c.mode) || Total(estimate) == 0 {
        return true;
      }
      if !readable {
        return false;
      }
      var spent := MonthToDateMicro(month);
      admitted := spent + Total(estimate) <= cap;
    }

    method RecordInvocation(c: Call, responseChars: nat, month: int, saved: bool)
      modifies this
      ensures events == if saved then old(events) + [CostEvent(c, responseChars, month)] else old(events)
    {
      if saved {
        events := events + [CostEvent(c, responseChars, month)];
      }
    }

    // The part of the dispatch before the provider is called.
    method Begin(c: Call, cap: int, month: int, io: Io) returns (admitted: bool)
      modifies this
      ensures admitted == Admitted(old(events), c, cap, month, io.readable)
      ensures events == Begun(old(events), c, cap, month, io)
    {
      admitted := EnforceCap(c, cap, month, io.readable);
      if !admitted && io.refusalSaved {
        events := events + [RefusedCap(month)];
      }
    }

    // One whole dispatch: check, call, record. The month may turn while the provider answers.
    method Dispatch(c: Call, cap: int, month: int, response: Option<nat>, later: int, io: Io) returns (admitted: bool)
      modifies this
      ensures admitted == Admitted(old(events), c, cap, month, io.readable)
      ensures admitted ==> events == Ended(old(events), c, response, later, io.costSaved)
      ensures !admitted ==> events == old(events) + if io.refusalSaved then [RefusedCap(month)] else []
      ensures admitted && io.costSaved ==>
                && |events| == |old(events)| + 1
                && Invoices(events[|old(events)|], c, match response case None => 0 case Some(n) => n, later)
    {
      admitted := Begin(c, cap, month, io);
      if admitted {
        CostInvoices(c, match response case None => 0 case Some(n) => n, later);
        RecordInvocation(c, match response case None => 0 case Some(n) => n, later, io.costSaved);
      }
    }
  }

  // ---------------------------------------------------------------- interleaved dispatches

  datatype State = State(history: seq<Event>, flights: seq<Call>, now: int)

  datatype Step =
    | Begin(call: Call, cap: int, io: Io)
    | End(flight: nat, response: Option<nat>, saved: bool)
    | Note
    | Tick(month: int)

  function Without(flights: seq<Call>, i: nat): seq<Call>
    requires i < |flights|
  {
    flights[..i] + flights[i + 1..]
  }

  predicate Enabled(s: State, step: Step) {
    match step
    case End(i, _, _) => i < |s.flights|
    case Tick(month) => s.now <= month
    case _ => true
  }

  function Next(s: State, step: Step): State
    requires Enabled(s, step)
  {
    match step
    case Begin(c, cap, io) =>
      State(Begun(s.history, c, cap, s.now, io),
            if Admitted(s.history, c, cap, s.now, io.readable) then s.flights + [c] else s.flights, s.now)
    case End(i, response, saved) =>
      State(Ended(s.history, s.flights[i], response, s.now, saved), Without(s.flights, i), s.now)
    case Note => s.(history := s.history + [Unrelated(s.now)])
    case Tick(month) => s.(now := month)
  }

  predicate Possible(s: State, steps: seq<Step>)
    decreases |steps|
  {
    steps != [] ==> Enabled(s, steps[0]) && Possible(Next(s, steps[0]), steps[1..])
  }

  function Run(s: State, steps: seq<Step>): State
    requires Possible(s, steps)
    decreases |steps|
  {
    if steps == [] then s else Run(Next(s, steps[0]), steps[1..])
  }

  const START := State([], [], 0)
}
