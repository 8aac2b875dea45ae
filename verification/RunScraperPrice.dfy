/** The price a call was let through for, against the bill of the run it starts. */
module RunScraperPrice {
  import opened Wrappers
  import Dicts
  import opened Errors
  import opened Accounts
  import opened Pricing
  import opened Idempotency
  import Routing
  import opened RemoteApi
  import opened RunFlow
  import opened RunScraperSafety
  import opened RunScraperTheorems

  /** Without `confirm`, no plan goes ahead whose quote exceeds the threshold. */
  lemma QuoteIsUnderThreshold(w: World, config: Config, call: Call, l: Loaded)
    requires !call.confirm && Prepare(w, config, call, l).0.Quoted?
    ensures var plan := Prepare(w, config, call, l).0.plan;
      var rows := RowsThisRun(call.squidId.Some?, Routing.TaskParams(l.schema, InputSent(call, l)) != map[], call.replaceTasks, plan.snapshot);
      var e := EstimateOf(l.crawler.prices, if rows.None? || rows.value == 0 then 1 else rows.value, EffectiveSettings(call, l));
      e.credits.Some? && e.credits.value <= config.threshold
  {
  }

  /** The rows a run scrapes are no more than the quote covered, once they are counted. */
  lemma QuoteCoversRows(call: Call, plan: Plan, before: seq<SavedTask>, listable: Limit, scraped: seq<SavedTask>)
    requires SnapshotOf(plan.snapshot, before, listable) && RunRows(plan, before, scraped)
    requires plan.replaceTasks == call.replaceTasks && ((plan.snapshot.Rows? && |before| <= listable) || Replacing(plan))
    requires !plan.hasInput ==> plan.row == map[]
    ensures var rows := RowsThisRun(true, plan.row != map[], call.replaceTasks, plan.snapshot);
      |scraped| <= if rows.None? || rows.value == 0 then 1 else rows.value
  {
  }

  /** What the run `run` may cost at most, whatever it yields within its caps. */
  ghost predicate CostsAtMost(prices: PriceList, run: Run, limit: real) {
    forall n: nat | Allowed(run.params, |run.tasks|, n) :: ProjectedCost(prices, run.params, |run.tasks|, n) <= limit
  }

  /** The saved rows are listed, all of them. */
  predicate Counted(w: World, call: Call, l: Loaded)
    requires LoadedFrom(w, call, l) && call.squidId.Some?
  {
    RowsListed(w, call, l) && |w.squids[call.squidId.value].tasks| <= w.listable
  }

  lemma RunNowPriceBound(w: World, config: Config, call: Call, l: Loaded)
    requires Valid(w) && LoadedFrom(w, call, l) && !call.confirm && Nonnegative(l.crawler.prices)
    requires Prepare(w, config, call, l).0.Quoted?
    requires call.squidId.None? || Counted(w, call, l) || Replaces(call)
    requires NewRun(w, RunNow(w, config, call, l).1)
    ensures CostsAtMost(l.crawler.prices, RunNow(w, config, call, l).1.runs[|w.runs|], config.threshold + 0.00005)
  {
    var (r, w') := RunNow(w, config, call, l);
    var plan, run := Prepare(w, config, call, l).0.plan, w'.runs[|w.runs|];
    RunNowFacts(w, config, call, l);
    PlanIsSound(w, config, call, l);
    QuoteIsUnderThreshold(w, config, call, l);
    if call.squidId.Some? {
      SavedParams(w, config, call, l, call.squidId.value);
      QuoteCoversRows(call, plan, w.squids[call.squidId.value].tasks, w.listable, run.tasks);
    }
    var rows := RowsThisRun(call.squidId.Some?, plan.row != map[], call.replaceTasks, plan.snapshot);
    var quoted := if rows.None? || rows.value == 0 then 1 else rows.value;
    assert run.params == EffectiveSettings(call, l);
    forall n: nat | Allowed(run.params, |run.tasks|, n)
      ensures ProjectedCost(l.crawler.prices, run.params, |run.tasks|, n) <= config.threshold + 0.00005
    {
      QuoteBoundsCost(l.crawler.prices, run.params, quoted, |run.tasks|, n);
    }
  }

  /** The crawler whose price list a run of this call is billed by: that of the squid. */
  function BilledCrawler(w: World, call: Call): Option<string> {
    match call.squidId
    case Some(id) => if id in w.squids then Some(w.squids[id].crawler) else None
    case None => call.scraper
  }

  /** The rows of the run can be known beforehand: the squid is new, its rows are listed, all of them, or
      they are replaced. */
  predicate RowsKnown(w: World, call: Call) {
    call.squidId.None? || ListingComplete(w, call) || Replaces(call)
  }

  /** The price bound, end to end.  A run that starts without `confirm`, its answer lost or not, costs at
      most the threshold, up to rounding, whatever it yields within the caps of the settings it runs
      under, on the rows it scrapes - provided the request that lists the saved rows is answered and
      they fit in the answer, or they are replaced, and the caller does not name another scraper than the squid's own. */
  lemma PriceBound(w: World, memory: Memory, config: Config, call: Call)
    requires Valid(w) && !call.confirm
    requires call.scraper.None? || call.scraper == BilledCrawler(w, call)
    requires RowsKnown(w, call) && NewRun(w, RunScraper(w, memory, config, call).1)
    ensures var run := RunScraper(w, memory, config, call).1.runs[|w.runs|];
      var billed := BilledCrawler(w, call);
      && billed.Some? && billed.value in w.crawlers
      && (Nonnegative(w.crawlers[billed.value].prices) ==>
            CostsAtMost(w.crawlers[billed.value].prices, run, config.threshold + 0.00005))
  {
    var l := CallFacts(w, memory, config, call);
    if l.Some? {
      var w1 := LoadAll(w, call).1;
      if Nonnegative(l.value.crawler.prices) {
        RunNowPriceBound(w1, config, call, l.value);
      }
    }
  }

  // ---- a price per row, and a cap on the whole run ----

  /** The price is per row, and the settings cap what the whole run may yield. */
  predicate CappedRun(prices: PriceList, settings: Settings) {
    prices.perTask.None? && PositiveInt(Setting(settings, "max_unique_results_per_run")).Some?
  }

  /** The quote then covers any number of rows. */
  lemma CapCoversRows(prices: PriceList, settings: Settings, quoted: nat, held: nat, n: nat)
    requires Nonnegative(prices) && CappedRun(prices, settings) && Allowed(settings, held, n)
    requires EstimateOf(prices, quoted, settings).credits.Some?
    ensures ProjectedCost(prices, settings, held, n) <= EstimateOf(prices, quoted, settings).credits.value + 0.00005
  {
    var more := if quoted < held then held else quoted;
    assert EstimateOf(prices, more, settings) == EstimateOf(prices, quoted, settings);
    QuoteBoundsCost(prices, settings, more, held, n);
  }

  lemma RunParams(w: World, config: Config, call: Call, l: Loaded)
    requires Valid(w) && LoadedFrom(w, call, l) && Prepare(w, config, call, l).0.Quoted?
    requires NewRun(w, RunNow(w, config, call, l).1)
    ensures RunNow(w, config, call, l).1.runs[|w.runs|].params == EffectiveSettings(call, l)
  {
    if call.squidId.Some? {
      SavedParams(w, config, call, l, call.squidId.value);
    } else {
      RunNowFacts(w, config, call, l);
      PlanIsSound(w, config, call, l);
    }
  }

  /** Under a cap on the whole run, a price per row is bounded whatever number of rows there are, listed or
      not: such a run costs at most the threshold, up to rounding, whatever it yields within the cap. */
  lemma CappedRunBound(w: World, memory: Memory, config: Config, call: Call)
    requires Valid(w) && !call.confirm
    requires call.scraper.None? || call.scraper == BilledCrawler(w, call)
    requires NewRun(w, RunScraper(w, memory, config, call).1)
    ensures var run := RunScraper(w, memory, config, call).1.runs[|w.runs|];
      var billed := BilledCrawler(w, call);
      && billed.Some? && billed.value in w.crawlers
      && var prices := w.crawlers[billed.value].prices;
         Nonnegative(prices) && CappedRun(prices, run.params) ==> CostsAtMost(prices, run, config.threshold + 0.00005)
  {
    var l := CallFacts(w, memory, config, call);
    hide RunScraper, Prepare, RunNow, InputErrors, KeyOf, Nonnegative, CappedRun;
    if l.Some? {
      var w1 := LoadAll(w, call).1;
      RunParams(w1, config, call, l.value);
      hide LoadAll;
      if Nonnegative(l.value.crawler.prices) && CappedRun(l.value.crawler.prices, EffectiveSettings(call, l.value)) {
        CapCoversRun(w1, config, call, l.value, RunNow(w1, config, call, l.value).1.runs[|w.runs|]);
      }
    }
  }

  lemma CapCoversRun(w: World, config: Config, call: Call, l: Loaded, run: Run)
    requires !call.confirm && Nonnegative(l.crawler.prices) && Prepare(w, config, call, l).0.Quoted?
    requires CappedRun(l.crawler.prices, run.params) && run.params == EffectiveSettings(call, l)
    ensures CostsAtMost(l.crawler.prices, run, config.threshold + 0.00005)
  {
    QuoteIsUnderThreshold(w, config, call, l);
    hide Prepare, EffectiveSettings, CappedRun, ProjectedCost, Allowed, EstimateOf;
    var plan := Prepare(w, config, call, l).0.plan;
    var rows := RowsThisRun(call.squidId.Some?, Routing.TaskParams(l.schema, InputSent(call, l)) != map[], call.replaceTasks, plan.snapshot);
    forall n: nat | Allowed(run.params, |run.tasks|, n)
      ensures ProjectedCost(l.crawler.prices, run.params, |run.tasks|, n) <= config.threshold + 0.00005
    {
      CapCoversRows(l.crawler.prices, run.params, if rows.None? || rows.value == 0 then 1 else rows.value, |run.tasks|, n);
    }
  }

  /** The answer to a call that started a run counts its rows, truly, exactly when they could be known; and
      none at all exactly when they could not be listed. */
  lemma CountedIff(w: World, memory: Memory, config: Config, call: Call)
    requires Valid(w) && NewRun(w, RunScraper(w, memory, config, call).1)
    ensures var (r, w', m') := RunScraper(w, memory, config, call);
      && (CountTold(r) == Some(|w'.runs[|w.runs|].tasks|) <==> RowsKnown(w, call))
      && (CountTold(r).None? <==> !(call.squidId.None? || ListingAnswered(w, call) || Replaces(call)))
  {
    hide RunScraper, RunNow, Prepare, InputErrors, KeyOf;
    var l := CallFacts(w, memory, config, call);
    if l.Some? {
      RunNowCounted(LoadAll(w, call).1, config, call, l.value);
    }
  }

  lemma RunNowCounted(w: World, config: Config, call: Call, l: Loaded)
    requires Valid(w) && LoadedFrom(w, call, l) && Prepare(w, config, call, l).0.Quoted?
    requires NewRun(w, RunNow(w, config, call, l).1)
    ensures var (r, w') := RunNow(w, config, call, l);
      && (CountTold(r) == Some(|w'.runs[|w.runs|].tasks|) <==> call.squidId.None? || Counted(w, call, l) || Replaces(call))
      && (CountTold(r).None? <==> !(call.squidId.None? || RowsListed(w, call, l) || Replaces(call)))
  {
    hide Prepare, RunNow, RowsListed;
    RunNowFacts(w, config, call, l);
    PlanIsSound(w, config, call, l);
  }

  // ---- where the bound stops ----

  /** One credit per task row, and fifty. */
  const CHEAP := PriceList(Some(1.0), NoRate, [])
  const DEAR := PriceList(Some(50.0), NoRate, [])

  const CONFIG := Config(1.0, Digest((s: string) => s, (m: map<string, Dicts.Json>) => ""), DEFAULT_TTL)

  function OneSquid(tasks: seq<SavedTask>, crawlers: map<string, Crawler>, script: seq<Fault>): World {
    World(map[0 := Squid.Squid("own", "s", tasks, map[], [], NullShape)], [], 1, crawlers, map[], [], 1, "", script)
  }

  function Rerun(scraper: Option<string>): Call {
    Call(scraper, [], false, Some("k"), Some(0), None, false, "u", 0.0, 0.0)
  }

  /** A squid without settings or accounts, and a re-run of it with neither input nor account. */
  ghost predicate PlainRerun(w: World, call: Call, prices: PriceList) {
    && call == Rerun(call.scraper) && 0 in w.squids && w.squids[0].params == map[]
    && w.squids[0].accounts == [] && w.squids[0].shape == NullShape
    && var s := call.scraper.GetOr(w.squids[0].crawler);
       s in w.crawlers && w.crawlers[s] == Crawler(s, [], prices, None)
  }

  /** Its reads: the squid, the crawler, the parameters, and the rows if that is answered. */
  function RerunReads(listed: bool): seq<Fault> {
    [Answered, Answered, Answered] + if listed then [] else [NotSent]
  }

  /** A re-run up to its quote. */
  lemma RerunUnfolds(w: World, call: Call, prices: PriceList, listed: bool)
    requires PlainRerun(w, call, prices) && w.script == RerunReads(listed)
    ensures var (load, w1) := LoadAll(w, call);
      && load.LoadDone? && w1 == w.(script := if listed then [] else [NotSent])
      && load.loaded.crawler.prices == prices && load.loaded.existing == Some(w.squids[0])
      && EffectiveSettings(call, load.loaded) == map[] && Routing.TaskParams(load.loaded.schema, []) == map[]
      && RunScraper(w, map[], CONFIG, call).0 == RunNow(w1, CONFIG, call, load.loaded).0
      && RunScraper(w, map[], CONFIG, call).1 == RunNow(w1, CONFIG, call, load.loaded).1
      && Prepare(w1, CONFIG, call, load.loaded) == QuoteRun(w1, CONFIG, call, load.loaded, None)
  {
    assert w.script[1..][1..][1..] == if listed then [] else [NotSent];
    ReadsAllOrRefuses([], NullShape);
    MergeNothing(map[]);
  }

  /** Nothing listed, or at most one row, is quoted as one. */
  lemma RerunIsCheap(w: World, call: Call, l: Loaded, listed: bool)
    requires call == Rerun(call.scraper) && 0 in w.squids && l.crawler.prices == CHEAP
    requires EffectiveSettings(call, l) == map[] && Routing.TaskParams(l.schema, []) == map[]
    requires w.script == (if listed then [] else [NotSent]) && |Listed(w.squids[0].tasks, w.listable)| <= 1
    ensures var (q, w1) := QuoteRun(w, CONFIG, call, l, None);
      && q.Quoted? && w1 == w.(script := []) && q.plan.squid == Some(0) && !q.plan.hasInput && q.plan.accounts.None?
      && (if listed then q.plan.snapshot.Rows? && q.plan.snapshot.total == |Listed(w.squids[0].tasks, w.listable)| else q.plan.snapshot.Unread?)
  {
    hide EffectiveSettings, Routing.TaskParams, ReadableRows;
    assert InputSent(call, l) == [];
  }

  /** A plan without input or accounts starts the squid as it is. */
  lemma PlainStart(w: World, plan: Plan)
    requires w.script == [] && 0 in w.squids && plan.squid == Some(0) && !plan.hasInput && plan.accounts.None?
    ensures WriteAndStart(w, plan) ==
            (Started(w.nextId, 0, UnchangedRows, if plan.snapshot.Rows? then Some(plan.snapshot.total) else None, 0),
             w.(runs := w.runs + [Run(w.nextId, 0, w.squids[0].tasks, w.squids[0].params)], nextId := w.nextId + 1))
  {
  }

  /** All of a re-run at no more than one credit. */
  lemma RerunStarts(w: World, call: Call, listed: bool)
    requires PlainRerun(w, call, CHEAP) && w.script == RerunReads(listed) && |Listed(w.squids[0].tasks, w.listable)| <= 1
    ensures RunScraper(w, map[], CONFIG, call).0 ==
            Started(w.nextId, 0, UnchangedRows, if listed then Some(|Listed(w.squids[0].tasks, w.listable)|) else None, 0)
    ensures RunScraper(w, map[], CONFIG, call).1 ==
            w.(script := [], runs := w.runs + [Run(w.nextId, 0, w.squids[0].tasks, map[])], nextId := w.nextId + 1)
  {
    hide RunScraper, Prepare, LoadAll, EffectiveSettings, Routing.TaskParams, QuoteRun, WriteAndStart, RerunReads;
    RerunUnfolds(w, call, CHEAP, listed);
    var (load, w1) := LoadAll(w, call);
    RerunIsCheap(w1, call, load.loaded, listed);
    var (q, w2) := QuoteRun(w1, CONFIG, call, load.loaded, None);
    PlainStart(w2, q.plan);
  }

  /** Rows that could not be listed are not counted, and a run of any number of them starts under the
      quote for one. */
  lemma UncountedRowsEscapeTheBound(tasks: seq<SavedTask>)
    ensures var w := OneSquid(tasks, map["own" := Crawler("own", [], CHEAP, None)], RerunReads(false));
      var (r, w', m') := RunScraper(w, map[], CONFIG, Rerun(None));
      && r == Started(1, 0, UnchangedRows, None, 0) && |w'.runs| == 1 && w'.runs[0].tasks == tasks
      && ProjectedCost(CHEAP, w'.runs[0].params, |tasks|, 0) == |tasks| as real
  {
    hide RunScraper, RerunReads;
    RerunStarts(OneSquid(tasks, map["own" := Crawler("own", [], CHEAP, None)], RerunReads(false)), Rerun(None), false);
  }

  /** Nor are rows past the end of the listing, even with every request answered: the answer then counts
      only the rows that were listed. */
  lemma UnlistedRowsEscapeTheBound(tasks: seq<SavedTask>)
    requires |tasks| >= 1
    ensures var w := OneSquid(tasks, map["own" := Crawler("own", [], CHEAP, None)], RerunReads(true));
      var (r, w', m') := RunScraper(w, map[], CONFIG, Rerun(None));
      && r == Started(1, 0, UnchangedRows, Some(1), 0) && |w'.runs| == 1 && w'.runs[0].tasks == tasks
      && ProjectedCost(CHEAP, w'.runs[0].params, |tasks|, 0) == |tasks| as real
  {
    hide RunScraper, RerunReads;
    RerunStarts(OneSquid(tasks, map["own" := Crawler("own", [], CHEAP, None)], RerunReads(true)), Rerun(None), true);
  }

  /** Naming another scraper with a saved squid quotes that scraper's price list; the squid still runs, and
      is billed, as its own crawler. */
  lemma OtherScraperEscapesTheBound(task: SavedTask)
    ensures var w := OneSquid([task], map["own" := Crawler("own", [], DEAR, None), "other" := Crawler("other", [], CHEAP, None)],
                              RerunReads(true));
      var (r, w', m') := RunScraper(w, map[], CONFIG, Rerun(Some("other")));
      && r == Started(1, 0, UnchangedRows, Some(1), 0) && |w'.runs| == 1 && w'.squids[0].crawler == "own"
      && ProjectedCost(w.crawlers["own"].prices, w'.runs[0].params, |w'.runs[0].tasks|, 0) == 50.0
  {
    hide RunScraper, RerunReads;
    var w := OneSquid([task], map["own" := Crawler("own", [], DEAR, None), "other" := Crawler("other", [], CHEAP, None)],
                      RerunReads(true));
    assert "own" != "other";
    RerunStarts(w, Rerun(Some("other")), true);
  }
}
