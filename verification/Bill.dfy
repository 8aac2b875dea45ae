/** The bill the estimate stands for, added up input by input, and what turning a step on or off does to it. */
module Bill {
  import opened Wrappers
  import opened Dicts
  import opened Pricing

  /** What counts as off: null, false, zero and whatever is empty. */
  predicate Off(v: Json) {
    v == JNull || v == JBool(false) || v == JInt(0) || v == JReal(0.0) || v == JStr("") || v == JList([]) || v == JDict(map[])
  }

  function TogglesOf(settings: Settings): map<string, Json> {
    if "functions" in settings && settings["functions"].JDict? then settings["functions"].entries else map[]
  }

  /** What the run does about a paid input: the toggle, else the flat setting, else the default. */
  function StateOf(input: PaidInput, settings: Settings): Json {
    if input.name in TogglesOf(settings) then TogglesOf(settings)[input.name]
    else if input.name in settings then settings[input.name]
    else input.default.GetOr(JNull)
  }

  predicate HasRate(rate: Rate) {
    rate != NoRate && rate != Versions(None, None)
  }

  /** A run is billed at the current rate, and at the legacy one only when there is no other. */
  function RateOf(rate: Rate): real {
    match rate
    case NoRate => 0.0
    case Flat(r) => r
    case Versions(current, legacy) => current.GetOr(legacy.GetOr(0.0))
  }

  /** The input's own part of the bill: its rate for each of the rows it succeeds on. */
  function Share(input: PaidInput, settings: Settings, rows: nat): real {
    if Off(StateOf(input, settings)) then 0.0
    else RateOf(input.rate) * Truncate(input.successRatio.GetOr(1.0) * rows as real) as real
  }

  function Shares(inputs: seq<PaidInput>, settings: Settings, rows: nat): real {
    if inputs == [] then 0.0 else Share(inputs[0], settings, rows) + Shares(inputs[1..], settings, rows)
  }

  /** The bill of a run that is paid by the row and yields so many. */
  function BillOf(prices: PriceList, settings: Settings, rows: nat): real {
    RateOf(prices.perRow) * rows as real + Shares(prices.paidInputs, settings, rows)
  }

  function Cap(settings: Settings, k: string): Option<nat> {
    if k in settings && settings[k].JInt? && settings[k].n > 0 then Some(settings[k].n) else None
  }

  /** The cap on the whole run if there is one, else the one on each task, once for each. */
  function RowsQuoted(settings: Settings, tasks: nat): Option<nat> {
    if Cap(settings, "max_unique_results_per_run").Some? then Cap(settings, "max_unique_results_per_run")
    else if Cap(settings, "max_results").Some? then Some(Cap(settings, "max_results").value * tasks)
    else None
  }

  // ---- the estimate is the bill ----

  lemma RateIs(rate: Rate)
    ensures ResolveRate(rate).Some? <==> HasRate(rate)
    ensures ResolveRate(rate).GetOr(0.0) == RateOf(rate)
  {
  }

  lemma TruthyIff(v: Json)
    ensures Truthy(v) <==> !Off(v)
  {
  }

  lemma StepOnIff(input: PaidInput, settings: Settings)
    ensures StepOn(input, settings) <==> !Off(StateOf(input, settings))
  {
    TruthyIff(StateOf(input, settings));
  }

  lemma {:induction false} SharesSplit(init: seq<PaidInput>, last: PaidInput, settings: Settings, rows: nat)
    ensures Shares(init + [last], settings, rows) == Shares(init, settings, rows) + Share(last, settings, rows)
  {
    if init == [] {
      assert [last][1..] == [];
      assert Shares([last][1..], settings, rows) == 0.0;
    } else {
      assert (init + [last])[1..] == init[1..] + [last];
      SharesSplit(init[1..], last, settings, rows);
    }
  }

  lemma StepIsShare(input: PaidInput, settings: Settings, rows: nat)
    ensures Share(input, settings, rows) ==
            if StepOn(input, settings) && ResolveRate(input.rate).Some?
            then StepCost(Step(ResolveRate(input.rate).value, input.successRatio.GetOr(1.0)), rows) else 0.0
  {
    hide StateOf, StepOn, Off, Truncate;
    StepOnIff(input, settings);
    RateIs(input.rate);
    var ratio := input.successRatio.GetOr(1.0);
    assert RowsCost(ratio, rows) == ratio * rows as real;
    var billed := Truncate(ratio * rows as real);
    if ResolveRate(input.rate).Some? {
      var step := Step(ResolveRate(input.rate).value, ratio);
      assert Billed(step, rows) == billed;
      assert StepCost(step, rows) == RateOf(input.rate) * billed as real;
    } else {
      assert RateOf(input.rate) * billed as real == 0.0;
    }
  }

  lemma {:induction false} StepsAreShares(inputs: seq<PaidInput>, settings: Settings, rows: nat)
    ensures StepsCost(PaidSteps(inputs, settings), rows) == Shares(inputs, settings, rows)
  {
    hide StepOn, StepCost, Share, ResolveRate;
    if inputs != [] {
      var init, last := inputs[..|inputs| - 1], inputs[|inputs| - 1];
      assert inputs == init + [last];
      StepsAreShares(init, settings, rows);
      SharesSplit(init, last, settings, rows);
      StepIsShare(last, settings, rows);
      var before := PaidSteps(init, settings);
      if StepOn(last, settings) && ResolveRate(last.rate).Some? {
        assert (before + [Step(ResolveRate(last.rate).value, last.successRatio.GetOr(1.0))])[..|before|] == before;
      }
    }
  }

  /** The estimate, whole: so much a task; or else, if there is a rate and a cap, the bill of all the rows the
      cap allows, rounded; or else none. */
  lemma EstimateIsBill(prices: PriceList, tasks: nat, settings: Settings)
    ensures EstimateOf(prices, tasks, settings).credits ==
            if prices.perTask.Some? then Some(prices.perTask.value * tasks as real)
            else if !HasRate(prices.perRow) || RowsQuoted(settings, tasks).None? then None
            else Some(Round4(BillOf(prices, settings, RowsQuoted(settings, tasks).value)))
    ensures EstimateOf(prices, tasks, settings).rate ==
            if prices.perTask.None? && HasRate(prices.perRow) then Some(RateOf(prices.perRow)) else None
  {
    assert MaxRows(settings, tasks) == RowsQuoted(settings, tasks);
    RateIs(prices.perRow);
    if MaxRows(settings, tasks).Some? {
      var rows := MaxRows(settings, tasks).value;
      StepsAreShares(prices.paidInputs, settings, rows);
      if HasRate(prices.perRow) {
        assert RowsCost(RateOf(prices.perRow), rows) + StepsCost(PaidSteps(prices.paidInputs, settings), rows) == BillOf(prices, settings, rows);
      }
    }
  }

  /** And what a run costs, as the bounds on it speak of it, is its bill. */
  lemma CostIsBill(prices: PriceList, settings: Settings, tasks: nat, n: nat)
    ensures ProjectedCost(prices, settings, tasks, n) ==
            if prices.perTask.Some? then prices.perTask.value * tasks as real else BillOf(prices, settings, n)
    ensures Allowed(settings, tasks, n) <==>
            && (Cap(settings, "max_unique_results_per_run").Some? ==> n <= Cap(settings, "max_unique_results_per_run").value)
            && (Cap(settings, "max_results").Some? ==> n <= Cap(settings, "max_results").value * tasks)
  {
    StepsAreShares(prices.paidInputs, settings, n);
    RateIs(prices.perRow);
  }

  /** Rounding goes to the nearest ten-thousandth, and from halfway to the even one. */
  lemma RoundsToNearest(x: real) returns (n: int)
    ensures Round4(x) == n as real / 10000.0
    ensures -0.5 <= n as real - x * 10000.0 <= 0.5
    ensures n as real - x * 10000.0 == 0.5 || n as real - x * 10000.0 == -0.5 ==> n % 2 == 0
  {
    var low := (x * 10000.0).Floor;
    var rest := x * 10000.0 - low as real;
    n := if rest < 0.5 then low else if rest > 0.5 then low + 1 else if low % 2 == 0 then low else low + 1;
  }

  /** Cutting goes to the next integer toward zero. */
  lemma CutsTowardZero(x: real)
    ensures x >= 0.0 ==> Truncate(x) as real <= x < (Truncate(x) + 1) as real
    ensures x <= 0.0 ==> (Truncate(x) - 1) as real < x <= Truncate(x) as real
  {
  }

  // ---- turning steps on and off ----

  /** Two settings under which all steps are in the same state are billed alike. */
  lemma {:induction false} SameStates(inputs: seq<PaidInput>, a: Settings, b: Settings, rows: nat)
    requires forall j | 0 <= j < |inputs| :: StateOf(inputs[j], a) == StateOf(inputs[j], b)
    ensures Shares(inputs, a, rows) == Shares(inputs, b, rows)
  {
    if inputs != [] {
      assert forall j | 0 <= j < |inputs[1..]| :: inputs[1..][j] == inputs[j + 1];
      SameStates(inputs[1..], a, b, rows);
    }
  }

  /** Settings with a meaning of their own. */
  predicate Reserved(k: string) {
    k == "functions" || k == "max_results" || k == "max_unique_results_per_run"
  }

  lemma AlikeMeansSame(prices: PriceList, tasks: nat, settings: Settings, k: string, v: Json)
    requires !Reserved(k)
    requires forall j | 0 <= j < |prices.paidInputs| :: StateOf(prices.paidInputs[j], settings[k := v]) == StateOf(prices.paidInputs[j], settings)
    ensures EstimateOf(prices, tasks, settings[k := v]) == EstimateOf(prices, tasks, settings)
  {
    EstimateIsBill(prices, tasks, settings);
    EstimateIsBill(prices, tasks, settings[k := v]);
    assert RowsQuoted(settings[k := v], tasks) == RowsQuoted(settings, tasks);
    hide RowsQuoted, EstimateOf, StateOf;
    if RowsQuoted(settings, tasks).Some? {
      SameStates(prices.paidInputs, settings[k := v], settings, RowsQuoted(settings, tasks).value);
    }
  }

  /** A step counts by default: spelling the default out changes no estimate. */
  lemma DefaultsCanBeSpelledOut(prices: PriceList, tasks: nat, settings: Settings, i: nat)
    requires i < |prices.paidInputs| && prices.paidInputs[i].default.Some? && !Reserved(prices.paidInputs[i].name)
    requires prices.paidInputs[i].name !in settings
    requires forall j | 0 <= j < |prices.paidInputs| && prices.paidInputs[j].name == prices.paidInputs[i].name ::
               prices.paidInputs[j].default == prices.paidInputs[i].default
    ensures EstimateOf(prices, tasks, settings[prices.paidInputs[i].name := prices.paidInputs[i].default.value])
         == EstimateOf(prices, tasks, settings)
  {
    AlikeMeansSame(prices, tasks, settings, prices.paidInputs[i].name, prices.paidInputs[i].default.value);
  }

  /** A toggle overrides the flat setting of its name. */
  lemma TogglesOverrideFlat(prices: PriceList, tasks: nat, settings: Settings, name: string, v: Json)
    requires name in TogglesOf(settings) && !Reserved(name)
    ensures EstimateOf(prices, tasks, settings[name := v]) == EstimateOf(prices, tasks, settings)
  {
    AlikeMeansSame(prices, tasks, settings, name, v);
  }

  function SwitchedOff(settings: Settings, name: string): Settings {
    settings["functions" := JDict(TogglesOf(settings)[name := JBool(false)])]
  }

  lemma {:induction false} SharesWithout(inputs: seq<PaidInput>, i: nat, a: Settings, b: Settings, rows: nat)
    requires i < |inputs| && Off(StateOf(inputs[i], b))
    requires forall j | 0 <= j < |inputs| && j != i :: StateOf(inputs[j], a) == StateOf(inputs[j], b)
    ensures Shares(inputs, b, rows) == Shares(inputs, a, rows) - Share(inputs[i], a, rows)
  {
    assert forall j | 0 <= j < |inputs[1..]| :: inputs[1..][j] == inputs[j + 1];
    if i == 0 {
      SameStates(inputs[1..], a, b, rows);
    } else {
      SharesWithout(inputs[1..], i - 1, a, b, rows);
    }
  }

  /** Switching a step off takes its own share off the bill, and nothing else. */
  lemma SwitchingOffSavesItsShare(prices: PriceList, settings: Settings, i: nat, rows: nat)
    requires i < |prices.paidInputs|
    requires forall j | 0 <= j < |prices.paidInputs| && j != i ::
               prices.paidInputs[j].name != prices.paidInputs[i].name && prices.paidInputs[j].name != "functions"
    ensures BillOf(prices, SwitchedOff(settings, prices.paidInputs[i].name), rows)
         == BillOf(prices, settings, rows) - Share(prices.paidInputs[i], settings, rows)
  {
    SharesWithout(prices.paidInputs, i, settings, SwitchedOff(settings, prices.paidInputs[i].name), rows);
  }

  /** The documented case: twenty rows at a credit each, and a step that is on by default and succeeds on three
      rows in ten. */
  lemma TwentyOrTwentySix()
    ensures var prices := PriceList(None, Flat(1.0), [PaidInput("emails", Flat(1.0), Some(JBool(true)), Some(0.3))]);
      var settings := map["max_unique_results_per_run" := JInt(20)];
      && EstimateOf(prices, 1, settings).credits == Some(26.0)
      && EstimateOf(prices, 1, SwitchedOff(settings, "emails")).credits == Some(20.0)
  {
    var emails := PaidInput("emails", Flat(1.0), Some(JBool(true)), Some(0.3));
    var prices := PriceList(None, Flat(1.0), [emails]);
    var settings := map["max_unique_results_per_run" := JInt(20)];
    assert "emails" != "max_unique_results_per_run" && "functions" != "max_unique_results_per_run";
    assert Share(emails, settings, 20) == 6.0;
    assert [emails][1..] == [];
    assert Shares([emails], settings, 20) == 6.0 + Shares([], settings, 20);
    EstimateIsBill(prices, 1, settings);
    EstimateIsBill(prices, 1, SwitchedOff(settings, "emails"));
    SwitchingOffSavesItsShare(prices, settings, 0, 20);
    assert Cap(settings, "max_unique_results_per_run") == Some(20);
    assert Cap(SwitchedOff(settings, "emails"), "max_unique_results_per_run") == Some(20);
    RoundsWhole(26);
    RoundsWhole(20);
  }

  lemma RoundsWhole(n: nat)
    ensures Round4(n as real) == n as real
  {
    assert (n as real * 10000.0) == (n * 10000) as real;
  }
}
