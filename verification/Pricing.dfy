/** The pre-run cost estimate, and the price it promises to bound. */
module Pricing {
  import opened Wrappers
  import opened Dicts

  /** `credits_per_row` and its like: absent or unusable, a plain number, or a current and a legacy rate. */
  datatype Rate = NoRate | Flat(r: real) | Versions(current: Option<real>, legacy: Option<real>)

  /** An input whose step is billed on top of the rows. */
  datatype PaidInput = PaidInput(name: string, rate: Rate, default: Option<Json>, successRatio: Option<real>)

  /** What a crawler publishes about its price. */
  datatype PriceList = PriceList(perTask: Option<real>, perRow: Rate, paidInputs: seq<PaidInput>)

  type Settings = map<string, Json>

  function ResolveRate(rate: Rate): Option<real> {
    match rate
    case NoRate => None
    case Flat(r) => Some(r)
    case Versions(Some(r), _) => Some(r)
    case Versions(None, legacy) => legacy
  }

  function PositiveInt(v: Option<Json>): Option<nat> {
    if v.Some? && v.value.JInt? && v.value.n > 0 then Some(v.value.n) else None
  }

  function Setting(settings: Settings, k: string): Option<Json> {
    if k in settings then Some(settings[k]) else None
  }

  function FunctionsOf(settings: Settings): Settings {
    if "functions" in settings && settings["functions"].JDict? then settings["functions"].entries else map[]
  }

  /** A step's state: what the settings say, nested or flat, else its default. */
  predicate StepOn(input: PaidInput, settings: Settings) {
    var state := if input.name in FunctionsOf(settings) then Some(FunctionsOf(settings)[input.name])
                 else if input.name in settings then Some(settings[input.name])
                 else input.default;
    state.Some? && Truthy(state.value)
  }

  datatype Step = Step(rate: real, ratio: real)

  /** The paid steps that are on for a run under these settings. */
  function PaidSteps(inputs: seq<PaidInput>, settings: Settings): seq<Step> {
    if inputs == [] then []
    else
      var before, last := PaidSteps(inputs[..|inputs| - 1], settings), inputs[|inputs| - 1];
      if StepOn(last, settings) && ResolveRate(last.rate).Some?
      then before + [Step(ResolveRate(last.rate).value, last.successRatio.GetOr(1.0))]
      else before
  }

  /** `int(x)`: truncation toward zero. */
  function Truncate(x: real): int {
    if x >= 0.0 then x.Floor else -((-x).Floor)
  }

  /** `round(x, 4)`, halves to the even digit. */
  function Round4(x: real): real {
    var scaled := x * 10000.0;
    var low := scaled.Floor;
    var rest := scaled - low as real;
    var n := if rest < 0.5 then low else if rest > 0.5 then low + 1 else if low % 2 == 0 then low else low + 1;
    n as real / 10000.0
  }

  lemma Round4Close(x: real)
    ensures x - 0.00005 <= Round4(x) <= x + 0.00005
  {
  }

  /** What one step is billed on: the share of the rows it succeeds on, cut to an integer. */
  function Billed(step: Step, rows: nat): int {
    Truncate(RowsCost(step.ratio, rows))
  }

  function StepCost(step: Step, rows: nat): real {
    RowsCost(step.rate, Billed(step, rows))
  }

  function StepsCost(steps: seq<Step>, rows: nat): real {
    if steps == [] then 0.0
    else StepsCost(steps[..|steps| - 1], rows) + StepCost(steps[|steps| - 1], rows)
  }

  function RowsCost(rate: real, rows: int): real {
    rate * rows as real
  }

  datatype Estimate = Estimate(credits: Option<real>, rate: Option<real>)

  /** The rows a run may yield at most, if its settings cap it: the whole-run cap, else the per-task cap
      times the task rows. */
  function MaxRows(settings: Settings, taskCount: nat): Option<nat> {
    var runCap := PositiveInt(Setting(settings, "max_unique_results_per_run"));
    var perTask := PositiveInt(Setting(settings, "max_results"));
    if runCap.Some? then runCap else if perTask.Some? then Some(perTask.value * taskCount) else None
  }

  /** The estimate without its wording. */
  function EstimateOf(prices: PriceList, taskCount: nat, settings: Settings): Estimate {
    if prices.perTask.Some? then Estimate(Some(RowsCost(prices.perTask.value, taskCount)), None)
    else
      var rate := ResolveRate(prices.perRow);
      if rate.None? then Estimate(None, None)
      else
        var rows := MaxRows(settings, taskCount);
        if rows.None? then Estimate(None, rate)
        else Estimate(Some(Round4(RowsCost(rate.value, rows.value) + StepsCost(PaidSteps(prices.paidInputs, settings), rows.value))), rate)
  }

  /** `paid_steps` and `estimate_cost`, with the loops that accumulate them. */
  method EstimateCost(prices: PriceList, taskCount: nat, settings: Settings) returns (e: Estimate)
    ensures e == EstimateOf(prices, taskCount, settings)
  {
    if prices.perTask.Some? {
      return Estimate(Some(RowsCost(prices.perTask.value, taskCount)), None);
    }
    var rate := ResolveRate(prices.perRow);
    if rate.None? {
      return Estimate(None, None);
    }
    var steps: seq<Step> := [];
    for i := 0 to |prices.paidInputs|
      invariant steps == PaidSteps(prices.paidInputs[..i], settings)
    {
      assert prices.paidInputs[..i + 1][..i] == prices.paidInputs[..i];
      var input := prices.paidInputs[i];
      var stepRate := ResolveRate(input.rate);
      if StepOn(input, settings) && stepRate.Some? {
        steps := steps + [Step(stepRate.value, input.successRatio.GetOr(1.0))];
      }
    }
    assert prices.paidInputs[..|prices.paidInputs|] == prices.paidInputs;
    var rows := MaxRows(settings, taskCount);
    if rows.None? {
      return Estimate(None, rate);
    }
    var total := RowsCost(rate.value, rows.value);
    for i := 0 to |steps|
      invariant total == RowsCost(rate.value, rows.value) + StepsCost(steps[..i], rows.value)
    {
      assert steps[..i + 1][..i] == steps[..i] && steps[..i + 1][i] == steps[i];
      total := total + StepCost(steps[i], rows.value);
    }
    assert steps[..|steps|] == steps;
    e := Estimate(Some(Round4(total)), rate);
  }

  // ---- the price the estimate bounds ----

  /** What a run is billed when it scrapes `taskCount` rows and yields `n` results. */
  function ProjectedCost(prices: PriceList, settings: Settings, taskCount: nat, n: nat): real {
    if prices.perTask.Some? then RowsCost(prices.perTask.value, taskCount)
    else RowsCost(ResolveRate(prices.perRow).GetOr(0.0), n) + StepsCost(PaidSteps(prices.paidInputs, settings), n)
  }

  /** A yield both caps allow. */
  predicate Allowed(settings: Settings, taskCount: nat, n: nat) {
    var runCap := PositiveInt(Setting(settings, "max_unique_results_per_run"));
    var perTask := PositiveInt(Setting(settings, "max_results"));
    (runCap.Some? ==> n <= runCap.value) && (perTask.Some? ==> n <= perTask.value * taskCount)
  }

  predicate Nonnegative(prices: PriceList) {
    && (prices.perTask.Some? ==> prices.perTask.value >= 0.0)
    && ResolveRate(prices.perRow).GetOr(0.0) >= 0.0
    && forall i | 0 <= i < |prices.paidInputs| ::
         ResolveRate(prices.paidInputs[i].rate).GetOr(0.0) >= 0.0 && prices.paidInputs[i].successRatio.GetOr(1.0) >= 0.0
  }

  lemma RowsMonotone(rate: real, m: int, n: int)
    requires rate >= 0.0 && m <= n
    ensures RowsCost(rate, m) <= RowsCost(rate, n)
  {
  }

  lemma TruncateMonotone(x: real, y: real)
    requires 0.0 <= x <= y
    ensures 0 <= Truncate(x) <= Truncate(y)
  {
  }

  lemma BilledMonotone(step: Step, m: nat, n: nat)
    requires m <= n && step.ratio >= 0.0
    ensures Billed(step, m) <= Billed(step, n)
  {
    RowsMonotone(step.ratio, 0, m);
    RowsMonotone(step.ratio, m, n);
    TruncateMonotone(RowsCost(step.ratio, m), RowsCost(step.ratio, n));
  }

  lemma StepMonotone(step: Step, m: nat, n: nat)
    requires m <= n && step.rate >= 0.0 && step.ratio >= 0.0
    ensures StepCost(step, m) <= StepCost(step, n)
  {
    BilledMonotone(step, m, n);
    RowsMonotone(step.rate, Billed(step, m), Billed(step, n));
  }

  lemma {:induction false} StepsMonotone(steps: seq<Step>, m: nat, n: nat)
    requires m <= n && forall i | 0 <= i < |steps| :: steps[i].rate >= 0.0 && steps[i].ratio >= 0.0
    ensures StepsCost(steps, m) <= StepsCost(steps, n)
  {
    if steps != [] {
      StepsMonotone(steps[..|steps| - 1], m, n);
      StepMonotone(steps[|steps| - 1], m, n);
    }
  }

  lemma {:induction false} StepsNonnegative(inputs: seq<PaidInput>, settings: Settings)
    requires forall i | 0 <= i < |inputs| ::
               ResolveRate(inputs[i].rate).GetOr(0.0) >= 0.0 && inputs[i].successRatio.GetOr(1.0) >= 0.0
    ensures forall i | 0 <= i < |PaidSteps(inputs, settings)| ::
              PaidSteps(inputs, settings)[i].rate >= 0.0 && PaidSteps(inputs, settings)[i].ratio >= 0.0
  {
    if inputs != [] {
      StepsNonnegative(inputs[..|inputs| - 1], settings);
      assert inputs[|inputs| - 1].successRatio.GetOr(1.0) >= 0.0;
    }
  }

  /** Any yield the caps allow, on no more rows than were quoted, costs at most the quoted credits, up
      to the rounding of the fourth decimal. */
  lemma QuoteBoundsCost(prices: PriceList, settings: Settings, quoted: nat, held: nat, n: nat)
    requires Nonnegative(prices) && held <= quoted && Allowed(settings, held, n)
    requires EstimateOf(prices, quoted, settings).credits.Some?
    ensures ProjectedCost(prices, settings, held, n) <= EstimateOf(prices, quoted, settings).credits.value + 0.00005
  {
    if prices.perTask.Some? {
      RowsMonotone(prices.perTask.value, held, quoted);
    } else {
      var rate, rows := ResolveRate(prices.perRow).value, MaxRows(settings, quoted).value;
      var steps := PaidSteps(prices.paidInputs, settings);
      RowsBound(settings, quoted, held, n);
      RowsMonotone(rate, n, rows);
      StepsNonnegative(prices.paidInputs, settings);
      StepsMonotone(steps, n, rows);
      Round4Close(RowsCost(rate, rows) + StepsCost(steps, rows));
    }
  }

  lemma RowsBound(settings: Settings, quoted: nat, held: nat, n: nat)
    requires held <= quoted && Allowed(settings, held, n) && MaxRows(settings, quoted).Some?
    ensures n <= MaxRows(settings, quoted).value
  {
    var perTask := PositiveInt(Setting(settings, "max_results"));
    if perTask.Some? {
      MulMonotone(perTask.value, held, quoted);
    }
  }

  lemma MulMonotone(x: nat, m: nat, n: nat)
    requires m <= n
    ensures x * m <= x * n
  {
  }

  /** The bound is the least one there is: the cap itself is an allowed yield, and it costs the quote. */
  lemma QuoteIsReached(prices: PriceList, settings: Settings, quoted: nat)
    requires EstimateOf(prices, quoted, settings).credits.Some? && prices.perTask.None?
    requires PositiveInt(Setting(settings, "max_results")).None?
             || PositiveInt(Setting(settings, "max_unique_results_per_run")).None?
             || MaxRows(settings, quoted).value <= PositiveInt(Setting(settings, "max_results")).value * quoted
    ensures var n := MaxRows(settings, quoted).value;
      Allowed(settings, quoted, n)
      && EstimateOf(prices, quoted, settings).credits.value <= ProjectedCost(prices, settings, quoted, n) + 0.00005
  {
    var n := MaxRows(settings, quoted).value;
    Round4Close(RowsCost(ResolveRate(prices.perRow).value, n) + StepsCost(PaidSteps(prices.paidInputs, settings), n));
  }

  // ---- a quote for one row, against any number of rows ----

  lemma {:induction false} StepsAtZero(steps: seq<Step>)
    ensures StepsCost(steps, 0) == 0.0
  {
    if steps != [] {
      StepsAtZero(steps[..|steps| - 1]);
    }
  }

  lemma StepsAtLeastNothing(steps: seq<Step>, n: nat)
    requires forall i | 0 <= i < |steps| :: steps[i].rate >= 0.0 && steps[i].ratio >= 0.0
    ensures StepsCost(steps, n) >= 0.0
  {
    StepsAtZero(steps);
    StepsMonotone(steps, 0, n);
  }

  lemma {:induction false} StepWithin(steps: seq<Step>, i: nat, n: nat)
    requires i < |steps| && forall i | 0 <= i < |steps| :: steps[i].rate >= 0.0 && steps[i].ratio >= 0.0
    ensures StepsCost(steps, n) >= StepCost(steps[i], n)
  {
    var init, last := steps[..|steps| - 1], steps[|steps| - 1];
    StepsAtLeastNothing(init, n);
    if i < |init| {
      StepWithin(init, i, n);
      StepMonotone(last, 0, n);
      assert StepCost(last, 0) == 0.0;
    }
  }

  /** Rows or steps that cost something. */
  predicate Charges(prices: PriceList, settings: Settings) {
    || ResolveRate(prices.perRow).GetOr(0.0) > 0.0
    || exists i | 0 <= i < |PaidSteps(prices.paidInputs, settings)| ::
         PaidSteps(prices.paidInputs, settings)[i].rate > 0.0 && PaidSteps(prices.paidInputs, settings)[i].ratio > 0.0
  }

  lemma {:induction false} FreeSteps(steps: seq<Step>, n: nat)
    requires forall i | 0 <= i < |steps| :: steps[i].rate == 0.0 || steps[i].ratio == 0.0
    ensures StepsCost(steps, n) == 0.0
  {
    if steps != [] {
      FreeSteps(steps[..|steps| - 1], n);
      var last := steps[|steps| - 1];
      assert StepCost(last, n) == 0.0 by {
        if last.rate != 0.0 {
          assert RowsCost(last.ratio, n) == 0.0;
        }
      }
    }
  }

  /** Anything that costs something costs more than the limit at some number of rows. */
  lemma Outgrows(rate: real, limit: real) returns (n: nat)
    requires rate > 0.0
    ensures RowsCost(rate, n) > limit
  {
    var most := if limit > 0.0 then limit / rate else 0.0;
    n := most.Floor + 1;
    assert n as real > most;
    assert rate * n as real > rate * most;
  }

  lemma StepOutgrows(step: Step, limit: real) returns (n: nat)
    requires step.rate > 0.0 && step.ratio > 0.0
    ensures StepCost(step, n) > limit
  {
    var k := Outgrows(step.rate, limit);
    n := Outgrows(step.ratio, k as real);
    RowsMonotone(step.rate, k, Billed(step, n));
  }

  /** Whether every yield the caps allow, on any number of rows, stays within the quote for one row. */
  ghost predicate OneRowBoundsAll(prices: PriceList, settings: Settings, quote: real) {
    forall held: nat, n: nat | Allowed(settings, held, n) :: ProjectedCost(prices, settings, held, n) <= quote + 0.00005
  }

  /** Rows that could not be counted are quoted as one.  That still bounds any number of them exactly when
      tasks are free, or the price is per row and either the whole run is capped or nothing costs
      anything. */
  lemma OneRowBoundsAllIff(prices: PriceList, settings: Settings)
    requires Nonnegative(prices) && EstimateOf(prices, 1, settings).credits.Some?
    ensures OneRowBoundsAll(prices, settings, EstimateOf(prices, 1, settings).credits.value) <==>
            if prices.perTask.Some? then prices.perTask.value == 0.0
            else PositiveInt(Setting(settings, "max_unique_results_per_run")).Some? || !Charges(prices, settings)
  {
    var quote := EstimateOf(prices, 1, settings).credits.value;
    if prices.perTask.Some? {
      OneTaskBoundsAll(prices, settings);
    } else if PositiveInt(Setting(settings, "max_unique_results_per_run")).Some? {
      forall held: nat, n: nat | Allowed(settings, held, n) ensures ProjectedCost(prices, settings, held, n) <= quote + 0.00005 {
        var more := if held < 1 then 1 else held;
        assert EstimateOf(prices, more, settings) == EstimateOf(prices, 1, settings);
        QuoteBoundsCost(prices, settings, more, held, n);
      }
    } else if Charges(prices, settings) {
      var n := ChargesOutgrow(prices, settings, quote + 0.00005);
      assert Allowed(settings, n, n) by {
        MulMonotone(n, 1, PositiveInt(Setting(settings, "max_results")).value);
      }
    } else {
      FreeIsBounded(prices, settings);
    }
  }

  lemma OneTaskBoundsAll(prices: PriceList, settings: Settings)
    requires Nonnegative(prices) && prices.perTask.Some?
    ensures OneRowBoundsAll(prices, settings, prices.perTask.value) <==> prices.perTask.value == 0.0
    ensures EstimateOf(prices, 1, settings).credits == Some(prices.perTask.value)
  {
    if prices.perTask.value > 0.0 {
      var n := Outgrows(prices.perTask.value, prices.perTask.value + 0.00005);
      assert Allowed(settings, n, 0);
    }
  }

  lemma ChargesOutgrow(prices: PriceList, settings: Settings, limit: real) returns (n: nat)
    requires Nonnegative(prices) && prices.perTask.None? && Charges(prices, settings)
    ensures ProjectedCost(prices, settings, n, n) > limit
  {
    var rate, steps := ResolveRate(prices.perRow).GetOr(0.0), PaidSteps(prices.paidInputs, settings);
    StepsNonnegative(prices.paidInputs, settings);
    if rate > 0.0 {
      n := Outgrows(rate, limit);
      StepsAtLeastNothing(steps, n);
    } else {
      var i :| 0 <= i < |steps| && steps[i].rate > 0.0 && steps[i].ratio > 0.0;
      n := StepOutgrows(steps[i], limit);
      StepWithin(steps, i, n);
    }
  }

  lemma FreeIsBounded(prices: PriceList, settings: Settings)
    requires Nonnegative(prices) && prices.perTask.None? && !Charges(prices, settings)
    requires EstimateOf(prices, 1, settings).credits.Some?
    ensures OneRowBoundsAll(prices, settings, EstimateOf(prices, 1, settings).credits.value)
  {
    var steps, rows := PaidSteps(prices.paidInputs, settings), MaxRows(settings, 1).value;
    StepsNonnegative(prices.paidInputs, settings);
    FreeSteps(steps, rows);
    assert Round4(0.0) == 0.0;
    forall held: nat, n: nat | Allowed(settings, held, n)
      ensures ProjectedCost(prices, settings, held, n) <= EstimateOf(prices, 1, settings).credits.value + 0.00005
    {
      FreeSteps(steps, n);
    }
  }

  /** Without nonnegative rates the cap need not be the dearest yield. */
  lemma NegativeRateBreaksTheBound()
    ensures var prices := PriceList(None, Flat(-1.0), []);
      var settings := map["max_unique_results_per_run" := JInt(10)];
      && Allowed(settings, 1, 0) && EstimateOf(prices, 1, settings).credits == Some(-10.0)
      && ProjectedCost(prices, settings, 1, 0) > -10.0 + 0.00005
  {
    var prices := PriceList(None, Flat(-1.0), []);
    var settings := map["max_unique_results_per_run" := JInt(10)];
    assert Setting(settings, "max_unique_results_per_run") == Some(JInt(10));
    assert "max_results" != "max_unique_results_per_run";
    assert "max_results" !in settings;
    assert PaidSteps([], settings) == [];
    assert (-1.0) * 10.0 == -10.0;
    assert Round4(-10.0) == -10.0 by {
      assert (-10.0) * 10000.0 == -100000.0;
      assert (-100000.0).Floor == -100000;
    }
  }
}
