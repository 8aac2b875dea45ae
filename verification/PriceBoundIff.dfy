/** Exactly when the price bound of `run_scraper` holds on a saved squid: over all worlds, for each call. */
module PriceBoundIff {
  import opened Wrappers
  import opened Dicts
  import opened Errors
  import opened Accounts
  import opened Pricing
  import SquidSettings
  import opened Idempotency
  import opened SchemaTranslator
  import opened Routing
  import opened RemoteApi
  import opened RunFlow
  import opened RunScraperSafety
  import opened RunScraperTheorems
  import opened RunScraperPrice
  import FaultFree
  import V = Validation

  /** A run the call starts, if it starts one, costs at most the threshold, up to rounding. */
  ghost predicate Bounded(w: World, memory: Memory, config: Config, call: Call) {
    var w' := RunScraper(w, memory, config, call).1;
    var billed := BilledCrawler(w, call);
    NewRun(w, w') ==>
      && billed.Some? && billed.value in w.crawlers
      && CostsAtMost(w.crawlers[billed.value].prices, w'.runs[|w.runs|], config.threshold + 0.00005)
  }

  /** A world with a squid of the crawler `own`, and no negative price. */
  ghost predicate Priced(w: World, id: nat, own: string) {
    && Valid(w) && id in w.squids && w.squids[id].crawler == own
    && forall c | c in w.crawlers :: Nonnegative(w.crawlers[c].prices)
  }

  // ---- a crawler that takes any input as toggles ----

  function AnySpec(input: Dict<Json>): Dict<Option<Spec>> {
    seq(|input|, i requires 0 <= i < |input| => Entry(input[i].key, Some(Spec(None, None))))
  }

  function AnyParams(input: Dict<Json>): Params {
    Params([], [Toggles(AnySpec(input))])
  }

  /** All that is published is untyped, at the level of toggles, and under its own name. */
  predicate PlainToggle(t: Translated, k: string) {
    && (k in t.properties ==> t.properties[k].kind.None?)
    && (k in t.levels ==> t.levels[k] == Function)
  }

  predicate Untyped(specs: Dict<Spec>, params: Option<Params>) {
    forall i | 0 <= i < |specs| :: specs[i].value == Spec(None, None) && Placement(params, specs[i].key) == Some(Function)
  }

  lemma {:induction false} PutUntyped(specs: Dict<Spec>, k: string, params: Option<Params>)
    requires Untyped(specs, params) && Placement(params, k) == Some(Function)
    ensures Untyped(Put(specs, k, Spec(None, None)), params)
  {
    if specs != [] && specs[0].key != k {
      PutUntyped(specs[1..], k, params);
    }
  }

  lemma {:induction false} TogglesUntyped(specs: Dict<Spec>, toggles: Dict<Option<Spec>>, params: Option<Params>)
    requires Untyped(specs, params)
    requires forall i | 0 <= i < |toggles| :: toggles[i].value == Some(Spec(None, None)) && Placement(params, toggles[i].key) == Some(Function)
    ensures Untyped(ToggleSpecs(specs, toggles), params)
    ensures forall k :: HasKey(ToggleSpecs(specs, toggles), k) <==> HasKey(specs, k) || HasKey(toggles, k)
    decreases toggles
  {
    if toggles != [] {
      var more := Put(specs, toggles[0].key, Spec(None, None));
      PutUntyped(specs, toggles[0].key, params);
      TogglesUntyped(more, toggles[1..], params);
      forall k ensures HasKey(ToggleSpecs(specs, toggles), k) <==> HasKey(specs, k) || HasKey(toggles, k) {
        PutHasKey(specs, toggles[0].key, Spec(None, None), k);
        assert toggles == [toggles[0]] + toggles[1..];
        HasKeyCons(toggles[0], toggles[1..], k);
      }
    }
  }

  lemma {:induction false} AddUntyped(t: Translated, specs: Dict<Spec>, params: Option<Params>)
    requires t.properties.Keys == t.levels.Keys && Untyped(specs, params) && forall k :: PlainToggle(t, k)
    ensures var r := AddParams(t, specs, params);
      (forall k :: PlainToggle(r, k)) && forall k | HasKey(specs, k) :: k in r.levels
    decreases specs
  {
    if specs == [] {
      assert AddParams(t, specs, params) == t;
    } else {
      var name := specs[0].key;
      assert specs[0].value == Spec(None, None);
      var t' := if name in t.properties then t
                else t.(properties := t.properties[name := Property(None, None)], levels := t.levels[name := Function]);
      forall k ensures PlainToggle(t', k) {
        assert PlainToggle(t, k);
      }
      AddUntyped(t', specs[1..], params);
      assert Placement(params, name) == Some(Function);
      assert AddParams(t, specs, params) == AddParams(t', specs[1..], params);
      assert specs == [specs[0]] + specs[1..];
      forall k: string ensures PlainToggle(AddParams(t, specs, params), k) {
        assert PlainToggle(AddParams(t', specs[1..], params), k);
      }
      forall k | HasKey(specs, k) ensures k in AddParams(t, specs, params).levels {
        HasKeyCons(specs[0], specs[1..], k);
      }
    }
  }

  /** Any input passes validation there, and all of it is toggles. */
  lemma AnyInputIsToggles(input: Dict<Json>)
    ensures var t := Translate([], Some(AnyParams(input)));
      && V.Errors(input, t, false) == []
      && Sent(t, input, TaskRow) == map[] && Sent(t, input, SquidParams) == map[]
      && !HasTaskInput(t, input)
  {
    var params := Some(AnyParams(input));
    var toggles := AnySpec(input);
    forall i | 0 <= i < |toggles| ensures Placement(params, toggles[i].key) == Some(Function) {
      assert Toggles(toggles) in params.value.squid && HasKey(toggles, toggles[i].key);
      assert Function in LevelsFromParams(params, toggles[i].key);
    }
    TogglesUntyped([], toggles, params);
    var specs := ToggleSpecs([], toggles);
    assert [Toggles(toggles)][1..] == [];
    assert SquidSpecs([], [Toggles(toggles)]) == SquidSpecs(specs, []) == specs;
    var t := Translate([], params);
    assert t == Published([], params);
    AddUntyped(FromItems([], params), ToggleSpecs([], toggles), params);
    assert forall i | 0 <= i < |input| :: toggles[i].key == input[i].key && HasKey(toggles, input[i].key);
    hide Translate, AddParams, FromItems, LevelsFromParams, ToggleSpecs;
    OnlyToggles(t, input);
  }

  lemma OnlyToggles(t: Translated, input: Dict<Json>)
    requires (forall k :: PlainToggle(t, k)) && forall i | 0 <= i < |input| :: input[i].key in t.levels
    ensures V.Errors(input, t, false) == []
    ensures Sent(t, input, TaskRow) == map[] && Sent(t, input, SquidParams) == map[] && !HasTaskInput(t, input)
  {
    forall i | 0 <= i < |input| ensures BucketOfKey(t, input[i].key) == Functions && V.WellTyped(input[i], t.properties) {
      assert PlainToggle(t, input[i].key);
    }
    V.TypeErrorsIff(input, t.properties);
    forall b: Bucket, w | b != Functions ensures w !in Sent(t, input, b) {
      SentFrom(t, input, b, w);
    }
  }

  // ---- a world in which the call runs ----

  const CAPPED: Settings := map["max_results" := JInt(1)]

  /** The settings allow one result per row, and no cap on the whole run. */
  predicate CappedAtOne(e: Settings) {
    "max_results" in e && e["max_results"] == JInt(1) && "max_unique_results_per_run" !in e
  }

  function Scraper(call: Call, own: string): string {
    call.scraper.GetOr(own)
  }

  /** A squid of `own` with the rows `tasks`, capped at one result per row; both crawlers take any input as
      toggles, and there is the one account they need. */
  function Witness(call: Call, id: nat, own: string, listed: bool, tasks: seq<SavedTask>, ownPrices: PriceList, otherPrices: PriceList): World {
    var s := Scraper(call, own);
    World(map[id := Squid.Squid(own, "s", tasks, CAPPED, [], NullShape)], [], id + 1,
          map[s := Crawler(s, [], otherPrices, Some("p")), own := Crawler(own, [], ownPrices, Some("p"))],
          map[s := AnyParams(call.input)], [Account(call.accountId.GetOr("a"), "p", "200", false, false)], 1, "",
          [Answered, Answered, Answered, Answered, if listed then Answered else NotSent])
  }

  function WitnessLoaded(w: World, call: Call, id: nat, own: string): Loaded
    requires id in w.squids && Scraper(call, own) in w.crawlers
  {
    var s := Scraper(call, own);
    Loaded(Some(w.squids[id]), s, w.crawlers[s], Translate([], Some(AnyParams(call.input))))
  }

  lemma WitnessLoads(call: Call, id: nat, own: string, listed: bool, tasks: seq<SavedTask>, ownPrices: PriceList, otherPrices: PriceList)
    requires call.squidId == Some(id)
    ensures var w := Witness(call, id, own, listed, tasks, ownPrices, otherPrices);
      LoadAll(w, call) == (LoadDone(WitnessLoaded(w, call, id, own)), w.(script := [Answered, if listed then Answered else NotSent]))
  {
    hide Translate;
    var w := Witness(call, id, own, listed, tasks, ownPrices, otherPrices);
    assert w.script[1..][1..][1..] == [Answered, if listed then Answered else NotSent];
  }

  lemma WitnessChooses(w: World, call: Call, l: Loaded)
    requires w.accounts == [Account(call.accountId.GetOr("a"), "p", "200", false, false)] && l.crawler.accountType == Some("p")
    requires l.existing.Some? && l.existing.value.accounts == [] && l.existing.value.shape == NullShape && Next(w).Answered?
    ensures ChooseAccounts(w, call, l) == (Attach(Some([call.accountId.GetOr("a")])), Tick(w))
  {
    ReadsAllOrRefuses([], NullShape);
    OnlyCandidateIsPicked(w.accounts, "p", 0);
    var account := call.accountId.GetOr("a");
    assert Find(w.accounts, account) == Some(w.accounts[0]);
    assert [] + [account] == [account];
  }

  lemma WitnessSettings(call: Call, l: Loaded)
    requires call.squidId.Some? && l.existing.Some? && l.existing.value.params == CAPPED
    requires l.schema == Translate([], Some(AnyParams(call.input)))
    ensures CappedAtOne(EffectiveSettings(call, l))
    ensures TaskParams(l.schema, InputSent(call, l)) == map[] && InputErrors(call, l) == []
  {
    AnyInputIsToggles(call.input);
    hide Translate, V.Errors;
    var update := SquidParamsOf(l.schema, call.input);
    assert "max_results" != "functions" && "max_unique_results_per_run" != "functions";
    SquidSettings.MergeFlat(CAPPED, update, "max_results");
    SquidSettings.MergeFlat(CAPPED, update, "max_unique_results_per_run");
  }

  /** The quote of the witness is that for one row. */
  lemma WitnessQuotes(w: World, config: Config, call: Call, l: Loaded, id: nat, listed: bool)
    requires call.squidId == Some(id) && id in w.squids && (listed ==> |w.squids[id].tasks| == 1)
    requires w.script == [Answered, if listed then Answered else NotSent]
    requires w.accounts == [Account(call.accountId.GetOr("a"), "p", "200", false, false)] && l.crawler.accountType == Some("p")
    requires l.existing == Some(w.squids[id]) && w.squids[id].accounts == [] && w.squids[id].shape == NullShape
    requires TaskParams(l.schema, InputSent(call, l)) == map[]
    requires var e := EstimateOf(l.crawler.prices, 1, EffectiveSettings(call, l)); e.credits.Some? && e.credits.value <= config.threshold
    ensures Prepare(w, config, call, l).0.Quoted? && Prepare(w, config, call, l).1 == w.(script := [])
    ensures RowsListed(w, call, l) == listed
  {
    WitnessChooses(w, call, l);
    hide ChooseAccounts, EstimateOf, EffectiveSettings, TaskParams, InputSent;
    assert w.script[1..] == [if listed then Answered else NotSent] && w.script[1..][1..] == [];
  }

  /** Writes that nothing stands in the way of, every one of them answered. */
  lemma UnrefusedRun(w: World, id: nat, plan: Plan)
    requires w.script == [] && id in w.squids && Planned(plan) && plan.squid == Some(id)
    requires Replacing(plan) || plan.row == map[]
    ensures var w' := WriteAndStart(w, plan).1;
      w'.runs == w.runs + [Run(w.nextId, id, if Replacing(plan) then [SavedTask(Some(plan.row))] else w.squids[id].tasks,
                               if plan.hasInput then plan.update.params.value else w.squids[id].params)]
  {
    FaultFree.AnsweredReplace(w, id, plan.update, plan.row, plan.snapshot);
    if plan.row == map[] {
      FaultFree.AnsweredSave(w, id, plan.update, plan.row);
    }
    hide ReplaceInput, SaveInput;
  }

  /** The quote for one row at one result is within the threshold. */
  ghost predicate Affordable(prices: PriceList, threshold: real) {
    forall e: Settings | CappedAtOne(e) ::
      EstimateOf(prices, 1, e).credits.Some? && EstimateOf(prices, 1, e).credits.value <= threshold
  }

  /** The witness, once the squid, its crawler and the parameters are read. */
  function Remaining(w: World, listed: bool): World {
    w.(script := [Answered, if listed then Answered else NotSent])
  }

  /** The call gets past its reads and its quote, `w1` being the world after the first of them. */
  ghost predicate Ready(w: World, w1: World, config: Config, call: Call, l: Loaded, listed: bool) {
    && LoadAll(w, call) == (LoadDone(l), w1) && LoadedFrom(w1, call, l) && InputErrors(call, l) == []
    && TaskParams(l.schema, InputSent(call, l)) == map[] && CappedAtOne(EffectiveSettings(call, l))
    && Prepare(w1, config, call, l).0.Quoted? && Prepare(w1, config, call, l).1 == w1.(script := [])
    && RowsListed(w1, call, l) == listed
  }

  lemma WitnessReady(config: Config, call: Call, id: nat, own: string, listed: bool, tasks: seq<SavedTask>,
                     ownPrices: PriceList, otherPrices: PriceList)
    requires call.squidId == Some(id) && (listed ==> |tasks| == 1)
    requires Affordable(if Scraper(call, own) == own then ownPrices else otherPrices, config.threshold)
    ensures var w := Witness(call, id, own, listed, tasks, ownPrices, otherPrices);
      Ready(w, Remaining(w, listed), config, call, WitnessLoaded(w, call, id, own), listed)
  {
    hide LoadAll, Prepare, RowsListed, Translate, InputErrors, EffectiveSettings, TaskParams, InputSent, EstimateOf, CappedAtOne, AnyParams;
    var w := Witness(call, id, own, listed, tasks, ownPrices, otherPrices);
    var l := WitnessLoaded(w, call, id, own);
    WitnessLoads(call, id, own, listed, tasks, ownPrices, otherPrices);
    WitnessSettings(call, l);
    assert EstimateOf(l.crawler.prices, 1, EffectiveSettings(call, l)).credits.Some?;
    WitnessQuotes(Remaining(w, listed), config, call, l, id, listed);
  }

  lemma ReadyLists(w: World, w1: World, config: Config, call: Call, l: Loaded, listed: bool, id: nat)
    requires call.squidId == Some(id) && id in w.squids && (listed ==> |w.squids[id].tasks| <= w.listable)
    requires Ready(w, w1, config, call, l, listed)
    ensures ListingComplete(w, call) == listed
  {
    hide LoadAll, Prepare, RowsListed, InputErrors, EffectiveSettings, TaskParams, InputSent, LoadedFrom, CappedAtOne;
  }

  lemma ReadyRuns(w: World, w1: World, config: Config, call: Call, l: Loaded, listed: bool, id: nat)
    requires call.squidId == Some(id) && id in w1.squids && w1.runs == w.runs && Ready(w, w1, config, call, l, listed)
    ensures var w' := RunScraper(w, map[], config, call).1;
      && NewRun(w, w')
      && var run := w'.runs[|w.runs|];
         (if Replaces(call) then |run.tasks| == 1 else run.tasks == w1.squids[id].tasks) && CappedAtOne(run.params)
  {
    WitnessPlan(w1, config, call, l, id);
    Reaches(w, config, call, l, w1);
    hide LoadAll, Prepare, RunScraper, RowsListed, InputErrors, EffectiveSettings, TaskParams, InputSent, LoadedFrom, WriteAndStart, CappedAtOne;
    UnrefusedRun(w1.(script := []), id, Prepare(w1, config, call, l).0.plan);
  }

  /** What the call runs on, and under, in the witness. */
  lemma WitnessRuns(config: Config, call: Call, id: nat, own: string, listed: bool, tasks: seq<SavedTask>,
                    ownPrices: PriceList, otherPrices: PriceList) returns (run: Run)
    requires call.squidId == Some(id) && !call.confirm && (listed ==> |tasks| == 1)
    requires Affordable(if Scraper(call, own) == own then ownPrices else otherPrices, config.threshold)
    ensures var w := Witness(call, id, own, listed, tasks, ownPrices, otherPrices);
      var w' := RunScraper(w, map[], config, call).1;
      && ListingComplete(w, call) == listed && NewRun(w, w') && run == w'.runs[|w.runs|]
      && (if Replaces(call) then |run.tasks| == 1 else run.tasks == tasks)
      && CappedAtOne(run.params)
  {
    hide RunScraper, ListingComplete, Ready, CappedAtOne, Affordable, AnyParams, WitnessLoaded;
    var w := Witness(call, id, own, listed, tasks, ownPrices, otherPrices);
    WitnessReady(config, call, id, own, listed, tasks, ownPrices, otherPrices);
    ReadyRuns(w, Remaining(w, listed), config, call, WitnessLoaded(w, call, id, own), listed, id);
    ReadyLists(w, Remaining(w, listed), config, call, WitnessLoaded(w, call, id, own), listed, id);
    run := RunScraper(w, map[], config, call).1.runs[|w.runs|];
  }

  lemma Reaches(w: World, config: Config, call: Call, l: Loaded, w1: World)
    requires LoadAll(w, call) == (LoadDone(l), w1) && InputErrors(call, l) == [] && Prepare(w1, config, call, l).0.Quoted?
    ensures RunScraper(w, map[], config, call).1 ==
            WriteAndStart(Prepare(w1, config, call, l).1, Prepare(w1, config, call, l).0.plan).1
  {
    hide LoadAll, InputErrors, Prepare, WriteAndStart, KeyOf;
  }

  lemma WitnessPlan(w: World, config: Config, call: Call, l: Loaded, id: nat)
    requires LoadedFrom(w, call, l) && call.squidId == Some(id) && Prepare(w, config, call, l).0.Quoted?
    ensures var p := Prepare(w, config, call, l).0.plan;
      && Planned(p) && p.squid == Some(id) && p.replaceTasks == call.replaceTasks && p.hasInput == (call.input != [])
      && p.row == TaskParams(l.schema, InputSent(call, l)) && p.update.params == Some(EffectiveSettings(call, l))
      && (call.input == [] ==> EffectiveSettings(call, l) == w.squids[id].params)
  {
    PlanIsSound(w, config, call, l);
    MergeNothing(w.squids[id].params);
  }

  // ---- the bound ----

  lemma QuoteIsNonnegative(prices: PriceList, taskCount: nat, settings: Settings)
    requires Nonnegative(prices) && EstimateOf(prices, taskCount, settings).credits.Some?
    ensures EstimateOf(prices, taskCount, settings).credits.value >= 0.0
  {
    if prices.perTask.Some? {
      RowsMonotone(prices.perTask.value, 0, taskCount);
    } else {
      var rate, rows := ResolveRate(prices.perRow).value, MaxRows(settings, taskCount).value;
      var steps := PaidSteps(prices.paidInputs, settings);
      RowsMonotone(rate, 0, rows);
      StepsNonnegative(prices.paidInputs, settings);
      StepsMonotone(steps, 0, rows);
      StepsAtZero(steps);
      RoundNonnegative(RowsCost(rate, rows) + StepsCost(steps, rows));
    }
  }

  lemma RoundNonnegative(x: real)
    requires x >= 0.0
    ensures Round4(x) >= 0.0
  {
  }

  /** Nothing costs less than nothing, so under a negative threshold every run has to be confirmed. */
  lemma NothingUnderNegative(w: World, memory: Memory, config: Config, call: Call, id: nat, own: string)
    requires Priced(w, id, own) && !call.confirm && config.threshold < 0.0
    ensures !NewRun(w, RunScraper(w, memory, config, call).1)
  {
    var l := CallFacts(w, memory, config, call);
    if l.Some? {
      var w1 := LoadAll(w, call).1;
      QuoteIsUnderThreshold(w1, config, call, l.value);
      var plan := Prepare(w1, config, call, l.value).0.plan;
      hide RunScraper, Prepare, LoadAll, EstimateOf;
      var rows := RowsThisRun(call.squidId.Some?, TaskParams(l.value.schema, InputSent(call, l.value)) != map[], call.replaceTasks, plan.snapshot);
      QuoteIsNonnegative(l.value.crawler.prices, if rows.None? || rows.value == 0 then 1 else rows.value, EffectiveSettings(call, l.value));
    }
  }

  lemma HoldsWithinGuard(w: World, memory: Memory, config: Config, call: Call, id: nat, own: string)
    requires Priced(w, id, own) && call.squidId == Some(id) && !call.confirm
    requires Scraper(call, own) == own && (ListingComplete(w, call) || Replaces(call))
    ensures Bounded(w, memory, config, call)
  {
    if NewRun(w, RunScraper(w, memory, config, call).1) {
      PriceBound(w, memory, config, call);
    }
    hide RunScraper, ListingComplete;
  }

  function PerTask(credits: real): PriceList {
    PriceList(Some(credits), NoRate, [])
  }

  function PerRow(credits: real): PriceList {
    PriceList(None, Flat(credits), [])
  }

  lemma FreeIsAffordable(threshold: real)
    requires threshold >= 0.0
    ensures Affordable(PerTask(0.0), threshold)
  {
  }

  /** Less than half of the fourth decimal is rounded away. */
  lemma CrumbsAreAffordable(threshold: real)
    requires threshold >= 0.0
    ensures Affordable(PerRow(0.00004), threshold)
  {
    assert Round4(0.00004) == 0.0 by {
      assert 0.00004 * 10000.0 == 0.4;
      assert (0.4).Floor == 0;
    }
    forall e: Settings | CappedAtOne(e)
      ensures EstimateOf(PerRow(0.00004), 1, e).credits.Some? && EstimateOf(PerRow(0.00004), 1, e).credits.value <= threshold
    {
      assert MaxRows(e, 1) == Some(1);
      assert PaidSteps([], e) == [];
      assert RowsCost(0.00004, 1) == 0.00004;
    }
  }

  lemma WitnessIsPriced(call: Call, id: nat, own: string, listed: bool, tasks: seq<SavedTask>, ownPrices: PriceList, otherPrices: PriceList)
    requires Nonnegative(ownPrices) && Nonnegative(otherPrices) && call.squidId == Some(id)
    ensures var w := Witness(call, id, own, listed, tasks, ownPrices, otherPrices);
      && Priced(w, id, own) && BilledCrawler(w, call) == Some(own) && own in w.crawlers && w.crawlers[own].prices == ownPrices
  {
    hide AnyParams, Nonnegative;
  }

  lemma Exceeds(w: World, config: Config, call: Call, own: string, n: nat)
    requires BilledCrawler(w, call) == Some(own) && own in w.crawlers && NewRun(w, RunScraper(w, map[], config, call).1)
    requires var run := RunScraper(w, map[], config, call).1.runs[|w.runs|];
      && Allowed(run.params, |run.tasks|, n)
      && ProjectedCost(w.crawlers[own].prices, run.params, |run.tasks|, n) > config.threshold + 0.00005
    ensures !Bounded(w, map[], config, call)
  {
    hide RunScraper, Allowed, ProjectedCost;
  }

  lemma OneRowCosts(params: Settings, price: real)
    ensures Allowed(params, 1, 0) && ProjectedCost(PerTask(price), params, 1, 0) == price
  {
  }

  /** Another scraper, whose price list is free, gets a squid run that its own crawler bills. */
  lemma BrokenByOtherScraper(config: Config, call: Call, id: nat, own: string, listed: bool) returns (w: World)
    requires call.squidId == Some(id) && !call.confirm && config.threshold >= 0.0 && Scraper(call, own) != own
    ensures Priced(w, id, own) && ListingComplete(w, call) == listed && !Bounded(w, map[], config, call)
  {
    var price := config.threshold + 1.0;
    var tasks := [SavedTask(None)];
    FreeIsAffordable(config.threshold);
    hide ListingComplete, RunScraper, Affordable, Witness, Bounded, Priced, BilledCrawler;
    var run := WitnessRuns(config, call, id, own, listed, tasks, PerTask(price), PerTask(0.0));
    w := Witness(call, id, own, listed, tasks, PerTask(price), PerTask(0.0));
    WitnessIsPriced(call, id, own, listed, tasks, PerTask(price), PerTask(0.0));
    assert |run.tasks| == 1;
    OneRowCosts(run.params, price);
    hide Allowed, ProjectedCost, PerTask;
    Exceeds(w, config, call, own, 0);
  }

  /** Rows that are not listed are quoted as one, however many there are. */
  lemma BrokenByUnlistedRows(config: Config, call: Call, id: nat, own: string) returns (w: World)
    requires call.squidId == Some(id) && !call.confirm && config.threshold >= 0.0 && Scraper(call, own) == own && !Replaces(call)
    ensures Priced(w, id, own) && !ListingComplete(w, call) && !Bounded(w, map[], config, call)
  {
    var k: nat := (config.threshold * 25000.0).Floor + 3;
    var tasks := seq(k, i => SavedTask(None));
    CrumbsAreAffordable(config.threshold);
    hide ListingComplete, RunScraper, Affordable, Witness, Bounded, Priced, BilledCrawler;
    var run := WitnessRuns(config, call, id, own, false, tasks, PerRow(0.00004), PerRow(0.00004));
    w := Witness(call, id, own, false, tasks, PerRow(0.00004), PerRow(0.00004));
    WitnessIsPriced(call, id, own, false, tasks, PerRow(0.00004), PerRow(0.00004));
    CrumbsAddUp(run.params, k, config.threshold);
    Exceeds(w, config, call, own, k);
  }

  lemma CrumbsAddUp(params: Settings, k: nat, threshold: real)
    requires CappedAtOne(params) && threshold * 25000.0 < (k - 2) as real
    ensures Allowed(params, k, k) && ProjectedCost(PerRow(0.00004), params, k, k) > threshold + 0.00005
  {
    assert PositiveInt(Some(JInt(1))) == Some(1);
    assert PaidSteps([], params) == [];
    assert ProjectedCost(PerRow(0.00004), params, k, k) == 0.00004 * k as real;
  }

  /** The price bound, exactly.  For each unconfirmed call on a saved squid, whether all its rows get listed or
      not: every run it starts, in every world without negative prices, costs at most the threshold, if and
      only if the call leaves the squid to its own crawler and either all rows are listed or the call
      replaces them - or the threshold is negative and lets nothing through.  Over the worlds with a price
      per row and a cap on the whole run, CappedRunBound needs neither rows listed nor replaced. */
  lemma BoundedIff(config: Config, call: Call, id: nat, own: string, listed: bool)
    requires call.squidId == Some(id) && !call.confirm
    ensures (forall w: World, memory: Memory | Priced(w, id, own) && ListingComplete(w, call) == listed :: Bounded(w, memory, config, call))
       <==> config.threshold < 0.0 || (call.scraper.GetOr(own) == own && (listed || Replaces(call)))
  {
    hide Priced, Bounded, ListingComplete;
    if config.threshold < 0.0 || (Scraper(call, own) == own && (listed || Replaces(call))) {
      forall w: World, memory: Memory | Priced(w, id, own) && ListingComplete(w, call) == listed
        ensures Bounded(w, memory, config, call)
      {
        if config.threshold < 0.0 {
          NothingIsBounded(w, memory, config, call, id, own);
        } else {
          HoldsWithinGuard(w, memory, config, call, id, own);
        }
      }
    } else if Scraper(call, own) != own {
      var w := BrokenByOtherScraper(config, call, id, own, listed);
    } else {
      var w := BrokenByUnlistedRows(config, call, id, own);
    }
  }

  lemma NothingIsBounded(w: World, memory: Memory, config: Config, call: Call, id: nat, own: string)
    requires Priced(w, id, own) && !call.confirm && config.threshold < 0.0
    ensures Bounded(w, memory, config, call)
  {
    NothingUnderNegative(w, memory, config, call, id, own);
    hide RunScraper;
  }
}
