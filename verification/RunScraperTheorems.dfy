/** The guarantees of one `run_scraper` call, whatever becomes of its requests. */
module RunScraperTheorems {
  import opened Wrappers
  import opened Dicts
  import opened Errors
  import opened Accounts
  import opened Pricing
  import opened SquidSettings
  import opened Idempotency
  import opened SchemaTranslator
  import opened Routing
  import opened RemoteApi
  import opened RunFlow
  import opened RunScraperSafety
  import V = Validation

  /** A call that stops before its writes. */
  ghost predicate StopsEarly(w: World, r: Response, w': World) {
    && Unchanged(w, w') && !r.Started?
    && (r.Failed? ==> r.failure.tasksLost.None? && r.failure.deleted.None? && r.failure.squid.None?)
  }

  /** A call either stops before anything is written, or goes through with the plan it made. */
  lemma CallFacts(w: World, memory: Memory, config: Config, call: Call) returns (l: Option<Loaded>)
    requires Valid(w)
    ensures var (r, w', m') := RunScraper(w, memory, config, call);
      match l
      case None => StopsEarly(w, r, w')
      case Some(l) =>
        && LoadAll(w, call).0 == LoadDone(l) && LoadedFrom(w, call, l) && InputErrors(call, l) == []
        && Recall(memory, KeyOf(config, call, l), call.now).None?
        && var w1 := LoadAll(w, call).1;
           && Unchanged(w, w1) && LoadedFrom(w1, call, l)
           && (r, w') == RunNow(w1, config, call, l)
           && Prepare(w1, config, call, l).0.Quoted?
  {
    LoadIsQuiet(w, call);
    var (load, w1) := LoadAll(w, call);
    if load.LoadStopped? || InputErrors(call, load.loaded) != []
       || Recall(memory, KeyOf(config, call, load.loaded), call.now).Some? {
      l := None;
      LoadStopsBare(w, call);
    } else {
      RunNowFacts(w1, config, call, load.loaded);
      l := if Prepare(w1, config, call, load.loaded).0.Quoted? then Some(load.loaded) else None;
    }
  }

  lemma LoadStopsBare(w: World, call: Call)
    ensures var (load, _) := LoadAll(w, call);
      load.LoadStopped? && load.response.Failed? ==>
        load.response.failure.tasksLost.None? && load.response.failure.deleted.None? && load.response.failure.squid.None?
  {
  }

  /** Every refusal - of the request, the input, the accounts, the confirmation, or for the sake of saved
      rows - leaves everything upstream as it was. */
  lemma RefusalsChangeNothing(w: World, memory: Memory, config: Config, call: Call)
    requires Valid(w)
    ensures var (r, w', m') := RunScraper(w, memory, config, call); IsRefusal(r) ==> Unchanged(w, w')
  {
    hide RunScraper, RunNow, Prepare, InputErrors, KeyOf;
    var l := CallFacts(w, memory, config, call);
    if l.Some? {
      RunNowFacts(LoadAll(w, call).1, config, call, l.value);
    }
  }

  /** Whether the request that lists the saved rows is answered, if the call gets that far. */
  predicate ListingAnswered(w: World, call: Call) {
    var (load, w1) := LoadAll(w, call);
    load.LoadDone? && RowsListed(w1, call, load.loaded)
  }

  /** And shows all of them. */
  predicate ListingComplete(w: World, call: Call) {
    ListingAnswered(w, call) && (call.squidId.Some? && call.squidId.value in w.squids ==> |w.squids[call.squidId.value].tasks| <= w.listable)
  }

  /** The saved rows give way to the call's own. */
  predicate Replaces(call: Call) {
    call.input != [] && call.replaceTasks
  }

  /** No silent loss.  Whatever the script, a call on a saved squid touches no other one, and the answer
      accounts for its rows: told that none is lost, every readable one that fits in a listing is still
      there, and all are if the request that lists them was not answered; told that rows are lost, every
      such one is in the answer if that request was answered, and none is otherwise; and else they are
      gone only from a run that was asked to replace them, and says so. */
  lemma NoSilentLoss(w: World, memory: Memory, config: Config, call: Call, id: nat)
    requires Valid(w) && call.squidId == Some(id) && id in w.squids
    ensures var (r, w', m') := RunScraper(w, memory, config, call);
      && OnlySquidAndRuns(w, w', id)
      && RowsTold(r, ListingAnswered(w, call), w.squids[id].tasks, w.listable, w'.squids[id].tasks)
      && (r.Started? && r.action == ReplacedRows ==> call.replaceTasks)
  {
    hide RunScraper, RunNow, Prepare, InputErrors, KeyOf, LoadAll, RowsListed, LoadedFrom;
    var l := CallFacts(w, memory, config, call);
    if l.Some? {
      var w1 := LoadAll(w, call).1;
      RunNowTells(w1, config, call, l.value, id);
    }
  }

  lemma RunNowTells(w: World, config: Config, call: Call, l: Loaded, id: nat)
    requires Valid(w) && LoadedFrom(w, call, l) && call.squidId == Some(id) && Prepare(w, config, call, l).0.Quoted?
    ensures var (r, w') := RunNow(w, config, call, l);
      && OnlySquidAndRuns(w, w', id)
      && RowsTold(r, RowsListed(w, call, l), w.squids[id].tasks, w.listable, w'.squids[id].tasks)
      && (!Replaces(call) ==> Keeps(w.squids[id].tasks, w'.squids[id].tasks))
      && (r.Started? && r.action == ReplacedRows ==> call.replaceTasks)
  {
    RunNowFacts(w, config, call, l);
    PlanIsSound(w, config, call, l);
    ReplacedWasAsked(w, config, call, l, id);
    hide RunNow, Prepare, RowsListed, RowsTold, Keeps;
  }

  lemma ReplacedWasAsked(w: World, config: Config, call: Call, l: Loaded, id: nat)
    requires Valid(w) && LoadedFrom(w, call, l) && call.squidId == Some(id) && Prepare(w, config, call, l).0.Quoted?
    ensures var (r, w') := RunNow(w, config, call, l);
      r.Started? && r.action == ReplacedRows ==> call.replaceTasks
  {
    PrepareIsQuiet(w, config, call, l);
    PlanIsSound(w, config, call, l);
    var (q, w1) := Prepare(w, config, call, l);
    CommitReusedFacts(w1, id, q.plan);
    var (c, w2) := Commit(w1, q.plan);
    if c.Ready? {
      LaunchFacts(w2, q.plan, c, w1.squids[id].tasks);
    }
  }

  // ---- rows that were not to be replaced ----

  /** The saved rows are all still there, and a run scrapes exactly them, or exactly one new row on a squid
      that had none. */
  ghost predicate RowsKept(w: World, w': World, id: nat) {
    && id in w.squids && id in w'.squids && Keeps(w.squids[id].tasks, w'.squids[id].tasks)
    && (NewRun(w, w') ==>
          var scraped, before := w'.runs[|w.runs|].tasks, w.squids[id].tasks;
          w'.runs[|w.runs|].squid == id && (scraped == before || (before == [] && |scraped| == 1)))
  }

  lemma RunNowKeepsRows(w: World, config: Config, call: Call, l: Loaded, id: nat)
    requires Valid(w) && LoadedFrom(w, call, l) && call.squidId == Some(id) && !call.replaceTasks
    requires Prepare(w, config, call, l).0.Quoted?
    ensures RowsKept(w, RunNow(w, config, call, l).1, id)
  {
    RunNowFacts(w, config, call, l);
    PlanIsSound(w, config, call, l);
  }

  /** Without `replace_tasks` no saved row is ever removed, whatever the script. */
  lemma RowsKeptUnlessReplaced(w: World, memory: Memory, config: Config, call: Call, id: nat)
    requires Valid(w) && call.squidId == Some(id) && id in w.squids && !call.replaceTasks
    ensures RowsKept(w, RunScraper(w, memory, config, call).1, id)
  {
    var l := CallFacts(w, memory, config, call);
    if l.Some? {
      RunNowKeepsRows(LoadAll(w, call).1, config, call, l.value, id);
    }
  }

  /** A run that was started is the one answered, or the answer says that its fate is unknown; and no call
      starts two. */
  lemma AtMostOneRun(w: World, memory: Memory, config: Config, call: Call)
    requires Valid(w)
    ensures var (r, w', m') := RunScraper(w, memory, config, call); RunTold(w, w', r)
  {
    hide RunScraper, RunNow, Prepare, InputErrors, KeyOf;
    var l := CallFacts(w, memory, config, call);
    if l.Some? {
      RunNowFacts(LoadAll(w, call).1, config, call, l.value);
    }
  }

  /** No anonymous orphan: a squid that a call left behind is named in its answer, unless the answer to
      its creation was lost; and one said to be deleted is gone. */
  lemma NoAnonymousSquid(w: World, memory: Memory, config: Config, call: Call)
    requires Valid(w) && call.squidId.None?
    ensures var (r, w', m') := RunScraper(w, memory, config, call);
      && w'.squids - {w.nextId} == w.squids
      && Named(r, w', w.nextId)
  {
    var l := CallFacts(w, memory, config, call);
    if l.Some? {
      RunNowFacts(LoadAll(w, call).1, config, call, l.value);
    } else {
      assert w.nextId !in w.squids;
      assert w.squids - {w.nextId} == w.squids;
    }
  }

  // ---- settings and accounts of a reused squid ----

  lemma SavedParams(w: World, config: Config, call: Call, l: Loaded, id: nat)
    requires Valid(w) && LoadedFrom(w, call, l) && call.squidId == Some(id) && Prepare(w, config, call, l).0.Quoted?
    ensures var (r, w') := RunNow(w, config, call, l);
      && id in w'.squids
      && (w'.squids[id].params == w.squids[id].params || w'.squids[id].params == EffectiveSettings(call, l))
      && (NewRun(w, w') ==> w'.runs[|w.runs|].params == w'.squids[id].params == EffectiveSettings(call, l))
  {
    RunNowFacts(w, config, call, l);
    PrepareIsQuiet(w, config, call, l);
    PlanIsSound(w, config, call, l);
    if InputSent(call, l) == [] {
      MergeNothing(w.squids[id].params);
    }
  }

  lemma MergeNothing(s: Settings)
    ensures Merge(s, map[]) == s
  {
    assert s + map[] == s;
  }

  /** The settings among the call's input, under their wire names, if the call gets to know its crawler. */
  function SettingsSent(w: World, call: Call): Settings {
    var load := LoadAll(w, call).0;
    if load.LoadDone? then SquidParamsOf(load.loaded.schema, call.input) else map[]
  }

  /** The settings of a reused squid end up as they were, or as they were with this call's own on top; and
      every run executes under the latter, which is then what the squid holds. */
  ghost predicate SettingsOk(w: World, w': World, id: nat, update: Settings) {
    && id in w.squids && id in w'.squids
    && var merged := Merge(w.squids[id].params, update);
    && (w'.squids[id].params == w.squids[id].params || w'.squids[id].params == merged)
    && (NewRun(w, w') ==> w'.runs[|w.runs|].params == w'.squids[id].params == merged)
  }

  lemma SettingsMerged(w: World, memory: Memory, config: Config, call: Call, id: nat)
    requires Valid(w) && call.squidId == Some(id) && id in w.squids
    ensures SettingsOk(w, RunScraper(w, memory, config, call).1, id, SettingsSent(w, call))
  {
    var l := CallFacts(w, memory, config, call);
    if l.Some? {
      SavedParams(LoadAll(w, call).1, config, call, l.value, id);
    }
  }

  /** The account list is the old one, or the old one with a single new account of the right platform. */
  ghost predicate AccountsGrow(accounts: seq<Account>, platform: Option<string>, before: seq<string>, after: seq<string>) {
    after == before ||
    (platform.Some? && |after| == |before| + 1 && before == after[..|before|]
     && after[|before|] !in before && OfPlatform(accounts, after[|before|], platform.value))
  }

  lemma ChosenAccounts(w: World, call: Call, l: Loaded, id: nat)
    requires LoadedFrom(w, call, l) && call.squidId == Some(id)
    requires ChooseAccounts(w, call, l).0.Attach? && ChooseAccounts(w, call, l).0.accounts.Some?
    ensures AccountsGrow(w.accounts, l.crawler.accountType, w.squids[id].accounts, ChooseAccounts(w, call, l).0.accounts.value)
    ensures w.squids[id].shape != OddShape
  {
    var s := w.squids[id];
    ReadsAllOrRefuses(s.accounts, s.shape);
    if call.accountId.Some? {
      ChosenIsOfPlatform(w.accounts, l.crawler.accountType.value, call.accountId.value);
    } else {
      var p := PickOrExplain(w.accounts, l.crawler.accountType.value);
      ChosenIsOfPlatform(w.accounts, l.crawler.accountType.value, p.id);
    }
  }

  /** The platform of the accounts the call's crawler needs, if the call gets to know its crawler. */
  function PlatformNeeded(w: World, call: Call): Option<string> {
    var load := LoadAll(w, call).0;
    if load.LoadDone? then load.loaded.crawler.accountType else None
  }

  /** Saving with a squid never detaches an account, and never attaches one twice or of another platform;
      an account list the client cannot read is not written at all. */
  ghost predicate AccountsOk(w: World, w': World, id: nat, platform: Option<string>) {
    && id in w.squids && id in w'.squids
    && AccountsGrow(w.accounts, platform, w.squids[id].accounts, w'.squids[id].accounts)
    && (w.squids[id].shape == OddShape ==> Unchanged(w, w'))
  }

  lemma AccountsOnlyGrow(w: World, memory: Memory, config: Config, call: Call, id: nat)
    requires Valid(w) && call.squidId == Some(id) && id in w.squids
    ensures AccountsOk(w, RunScraper(w, memory, config, call).1, id, PlatformNeeded(w, call))
  {
    var l := CallFacts(w, memory, config, call);
    if l.Some? {
      SavedAccounts(LoadAll(w, call).1, config, call, l.value, id);
    }
  }

  lemma SavedAccounts(w: World, config: Config, call: Call, l: Loaded, id: nat)
    requires Valid(w) && LoadedFrom(w, call, l) && call.squidId == Some(id) && Prepare(w, config, call, l).0.Quoted?
    ensures AccountsOk(w, RunNow(w, config, call, l).1, id, l.crawler.accountType)
  {
    RunNowFacts(w, config, call, l);
    PlanIsSound(w, config, call, l);
    AttachedAccounts(w, config, call, l, id);
  }

  lemma AttachedAccounts(w: World, config: Config, call: Call, l: Loaded, id: nat)
    requires LoadedFrom(w, call, l) && call.squidId == Some(id) && Prepare(w, config, call, l).0.Quoted?
    ensures w.squids[id].shape != OddShape
    ensures var p := Prepare(w, config, call, l).0.plan;
      p.accounts.Some? ==> AccountsGrow(w.accounts, l.crawler.accountType, w.squids[id].accounts, p.accounts.value)
  {
    ReadsAllOrRefuses(w.squids[id].accounts, w.squids[id].shape);
    var (choice, w1) := ChooseAccounts(w, call, l);
    if choice.accounts.Some? {
      ChosenAccounts(w, call, l, id);
    }
  }

  // ---- what a new squid's run has to work with ----

  /** Where a run finds the inputs of a bucket: in its row, its settings, or the toggles among them. */
  function Placed(b: Bucket, row: Row, settings: Settings): map<string, Json> {
    match b
    case TaskRow => row
    case SquidParams => settings
    case Functions => FunctionsOf(settings)
  }

  /** Every required input of the group, or every required ungrouped one, is where its level puts it. */
  ghost predicate HasRequired(items: seq<Item>, params: Option<Params>, group: Option<string>, row: Row, settings: Settings) {
    forall n | Declared(items, n) && Kept(items, n).required && Kept(items, n).group == group ::
      n in Placed(BucketOf(KeptLevel(items, n, params)), row, settings)
  }

  /** All that is required ungrouped, and one whole group if any group has required inputs. */
  ghost predicate HasEnough(items: seq<Item>, params: Option<Params>, row: Row, settings: Settings) {
    && HasRequired(items, params, None, row, settings)
    && (GroupNames(KeptItems(items)) != [] ==>
          exists g :: g in GroupNames(KeptItems(items)) && HasRequired(items, params, Some(g), row, settings))
  }

  /** A run on a squid made by the call scrapes one row; between it, the settings and the toggles, the run has
      a value for every ungrouped input the crawler requires, and for those of one whole group. */
  lemma NewRunHasRequiredInputs(w: World, memory: Memory, config: Config, call: Call) returns (params: Option<Params>)
    requires Valid(w) && call.squidId.None? && UniqueKeys(call.input)
    requires NewRun(w, RunScraper(w, memory, config, call).1)
    ensures call.scraper.Some? && call.scraper.value in w.crawlers
    ensures params.None? || (call.scraper.value in w.crawlerParams && params.value == w.crawlerParams[call.scraper.value])
    ensures var run, items := RunScraper(w, memory, config, call).1.runs[|w.runs|], w.crawlers[call.scraper.value].items;
      LevelsDeclared(items) ==>
        && |run.tasks| == 1 && run.tasks[0].params.Some?
        && HasEnough(items, params, run.tasks[0].params.value, run.params)
  {
    hide RunScraper, RunNow, Prepare, InputErrors, KeyOf, HasEnough, Translate;
    var l := CallFacts(w, memory, config, call);
    RunOfNew(LoadAll(w, call).1, config, call, l.value);
    params := SchemaRead(w, call, l.value);
    PassedItsChecks(w, memory, config, call, l.value);
    var items := w.crawlers[call.scraper.value].items;
    if LevelsDeclared(items) {
      RequiredAreSent(items, params, call.input);
    }
  }

  lemma RunOfNew(w: World, config: Config, call: Call, l: Loaded)
    requires Valid(w) && LoadedFrom(w, call, l) && call.squidId.None? && Prepare(w, config, call, l).0.Quoted?
    requires NewRun(w, RunNow(w, config, call, l).1)
    ensures var run := RunNow(w, config, call, l).1.runs[|w.runs|];
      run.tasks == [SavedTask(Some(TaskParams(l.schema, InputSent(call, l))))] && run.params == EffectiveSettings(call, l)
  {
    RunNowFacts(w, config, call, l);
    PlanIsSound(w, config, call, l);
  }

  lemma SchemaRead(w: World, call: Call, l: Loaded) returns (params: Option<Params>)
    requires call.squidId.None? && LoadAll(w, call).0 == LoadDone(l)
    ensures params.None? || (l.scraper in w.crawlerParams && params.value == w.crawlerParams[l.scraper])
    ensures l.schema == Translate(l.crawler.items, params)
  {
    params := ReadParams(ReadCrawler(w, l.scraper).1, l.scraper).0;
  }

  /** Nothing gets past the checks of the input: all of them for a new squid. */
  lemma PassedItsChecks(w: World, memory: Memory, config: Config, call: Call, l: Loaded)
    requires Valid(w) && LoadAll(w, call).0 == LoadDone(l) && call.squidId.None?
    requires NewRun(w, RunScraper(w, memory, config, call).1)
    ensures V.Errors(call.input, l.schema, true) == []
  {
    LoadIsQuiet(w, call);
    hide RunNow, KeyOf, Translate;
  }

  /** What is sorted into a bucket is found in its place. */
  lemma SentIsPlaced(t: Translated, input: Dict<Json>, b: Bucket, n: string)
    requires n in Sent(t, input, b)
    ensures n in Placed(b, TaskParams(t, input), SquidParamsOf(t, input))
  {
  }

  lemma RequiredAreSent(items: seq<Item>, params: Option<Params>, input: Dict<Json>)
    requires UniqueKeys(input) && LevelsDeclared(items) && V.Errors(input, Translate(items, params), true) == []
    ensures var t := Translate(items, params);
      HasEnough(items, params, TaskParams(t, V.Filled(t, input)), Merge(map[], SquidParamsOf(t, V.Filled(t, input))))
  {
    hide Translate, V.Errors, V.Filled, KeptLevel, Kept, KeptItems, LevelsDeclared;
    var t := Translate(items, params);
    var filled := V.Filled(t, input);
    V.ValidationSound(items, params, input);
    MergeIntoNothing(SquidParamsOf(t, filled));
    forall n | Declared(items, n) && n in Sent(t, filled, BucketOf(KeptLevel(items, n, params)))
      ensures n in Placed(BucketOf(KeptLevel(items, n, params)), TaskParams(t, filled), SquidParamsOf(t, filled))
    {
      SentIsPlaced(t, filled, BucketOf(KeptLevel(items, n, params)), n);
    }
    hide TaskParams, SquidParamsOf, Placed;
    if GroupNames(KeptItems(items)) != [] {
      var g :| g in GroupNames(KeptItems(items)) && V.GroupSent(items, params, input, g);
      assert HasRequired(items, params, Some(g), TaskParams(t, filled), SquidParamsOf(t, filled));
    }
  }
}
