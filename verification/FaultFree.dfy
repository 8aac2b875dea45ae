/** What the tools do when every request is answered: not merely nothing bad, but exactly what was asked. */
module FaultFree {
  import opened Wrappers
  import Dicts
  import opened Errors
  import opened Accounts
  import opened Pricing
  import SquidSettings
  import opened Idempotency
  import opened SchemaTranslator
  import opened Routing
  import opened RemoteApi
  import opened RunFlow
  import opened RunScraperSafety
  import opened Primitives
  import V = Validation

  // ---- the writes of a run ----

  lemma AnsweredReplace(w: World, id: nat, u: Update, row: Row, snapshot: Snapshot)
    requires w.script == [] && id in w.squids
    ensures ReplaceInput(w, id, u, row, snapshot) ==
            (None, w.(squids := w.squids[id := Saved(w.squids[id], u).(tasks := [SavedTask(Some(row))])]))
  {
    AddOneToNone(row);
    var s1 := Saved(w.squids[id], u);
    var w1 := w.(squids := w.squids[id := s1]);
    assert UpdateSquid(w, id, u) == (Ok, w1);
    var w2 := w1.(squids := w1.squids[id := s1.(tasks := [])]);
    assert EmptySquid(w1, id) == (Ok, w2);
    assert AddTasks(w2, id, [row]).1.squids == w.squids[id := s1.(tasks := [SavedTask(Some(row))])];
  }

  lemma AnsweredSave(w: World, id: nat, u: Update, row: Row)
    requires w.script == [] && id in w.squids && (row != map[] ==> w.squids[id].tasks == [])
    ensures SaveInput(w, id, u, row) ==
            (None, w.(squids := w.squids[id := Saved(w.squids[id], u).(tasks := if row == map[] then w.squids[id].tasks
                                                                                else [SavedTask(Some(row))])]))
  {
    AddOneToNone(row);
    var s1 := Saved(w.squids[id], u);
    assert UpdateSquid(w, id, u) == (Ok, w.(squids := w.squids[id := s1]));
    assert w.squids[id := s1][id := s1.(tasks := [SavedTask(Some(row))])] == w.squids[id := s1.(tasks := [SavedTask(Some(row))])];
  }

  /** The rows a saved squid holds after a call that was carried out. */
  function RowsAfter(plan: Plan, before: seq<SavedTask>): seq<SavedTask> {
    if Replacing(plan) || (plan.hasInput && plan.row != map[]) then [SavedTask(Some(plan.row))] else before
  }

  function ActionOf(plan: Plan): TasksAction {
    if Replacing(plan) then ReplacedRows else if plan.hasInput && plan.row != map[] then AddedRow else UnchangedRows
  }

  /** The rows as they are listed. */
  function SeenRows(w: World, id: nat): Snapshot
    requires id in w.squids
  {
    var seen := Listed(w.squids[id].tasks, w.listable);
    Rows(ReadableRows(seen), |seen|)
  }

  predicate RowsInTheWay(plan: Plan, before: seq<SavedTask>) {
    plan.hasInput && !plan.replaceTasks && plan.row != map[] && before != []
  }

  /** The squid as the plan wants it. */
  function SquidAfter(plan: Plan, s: Squid): Squid
    requires Planned(plan)
  {
    s.(name := if plan.hasInput then plan.update.name.value else s.name, tasks := RowsAfter(plan, s.tasks), accounts := plan.accounts.GetOr(s.accounts),
       params := if plan.hasInput then plan.update.params.value else s.params)
  }

  ghost predicate CommittedAsAsked(w: World, id: nat, plan: Plan, c: Committed, w': World)
    requires id in w.squids && Planned(plan)
  {
    var before, seen := w.squids[id].tasks, |Listed(w.squids[id].tasks, w.listable)|;
    if RowsInTheWay(plan, before) then c == CommitStopped(SquidHasTasks(id, seen)) && w' == w
    else
      && c == Ready(id, ActionOf(plan), Some(|Listed(RowsAfter(plan, before), w.listable)|), if Replacing(plan) then seen else 0)
      && w' == w.(squids := w.squids[id := SquidAfter(plan, w.squids[id])])
  }

  lemma AnsweredCommit(w: World, id: nat, plan: Plan)
    requires w.script == [] && id in w.squids && Planned(plan)
    requires plan.snapshot == SeenRows(w, id)
    ensures var (c, w') := CommitReused(w, id, plan); CommittedAsAsked(w, id, plan, c, w')
  {
    if !plan.hasInput {
      assert w.squids[id := w.squids[id]] == w.squids;
    } else if plan.replaceTasks {
      AnsweredReplace(w, id, plan.update, plan.row, plan.snapshot);
      hide ReplaceInput;
    } else if !RowsInTheWay(plan, w.squids[id].tasks) {
      AnsweredSave(w, id, plan.update, plan.row);
      hide SaveInput;
    }
  }

  /** The run the call starts, and its answer. */
  ghost predicate RanAsAsked(w: World, id: nat, plan: Plan, r: Response, w': World)
    requires id in w.squids && Planned(plan)
  {
    var before, seen := w.squids[id].tasks, |Listed(w.squids[id].tasks, w.listable)|;
    if RowsInTheWay(plan, before) then r == SquidHasTasks(id, seen) && w' == w
    else
      && var after := SquidAfter(plan, w.squids[id]);
      && r == Started(w.nextId, id, ActionOf(plan), Some(|Listed(after.tasks, w.listable)|), if Replacing(plan) then seen else 0)
      && w' == w.(squids := w.squids[id := after], nextId := w.nextId + 1,
                  runs := w.runs + [Run(w.nextId, id, after.tasks, after.params)])
  }

  lemma AnsweredWrites(w: World, id: nat, plan: Plan)
    requires w.script == [] && id in w.squids && Planned(plan) && plan.squid == Some(id)
    requires plan.snapshot == SeenRows(w, id)
    ensures var (r, w') := WriteAndStart(w, plan); RanAsAsked(w, id, plan, r, w')
  {
    AnsweredCommit(w, id, plan);
    hide CommitReused;
  }

  /** A call on a saved squid that nothing stops before its writes, every request being answered, is
      either refused because rows are in the way, or does exactly what it was asked to and nothing else:
      the rows, settings and accounts it leaves, the run it starts, and the counts in its answer. */
  lemma AnsweredRunOnSaved(w: World, config: Config, call: Call, l: Loaded, id: nat)
    requires w.script == [] && LoadedFrom(w, call, l) && call.squidId == Some(id)
    requires Prepare(w, config, call, l).0.Quoted?
    ensures var plan := Prepare(w, config, call, l).0.plan;
      var (r, w') := RunNow(w, config, call, l);
      && Planned(plan) && plan.hasInput == (call.input != []) && plan.replaceTasks == call.replaceTasks
      && plan.row == TaskParams(l.schema, call.input) && plan.update.params == Some(EffectiveSettings(call, l))
      && plan.update.name == Some(if w.squids[id].name != "" then w.squids[id].name
                                  else if l.crawler.name != "" then l.crawler.name else l.scraper)
      && RanAsAsked(w, id, plan, r, w')
  {
    PlanIsSound(w, config, call, l);
    PrepareAnswered(w, config, call, l, id);
    PrepareIsQuiet(w, config, call, l);
    hide Prepare, WriteAndStart;
    AnsweredWrites(w, id, Prepare(w, config, call, l).0.plan);
  }

  lemma PrepareAnswered(w: World, config: Config, call: Call, l: Loaded, id: nat)
    requires w.script == [] && LoadedFrom(w, call, l) && call.squidId == Some(id)
    requires Prepare(w, config, call, l).0.Quoted?
    ensures Prepare(w, config, call, l).1 == w
    ensures Prepare(w, config, call, l).0.plan.snapshot == SeenRows(w, id)
  {
  }

  /** And a call that makes its squid makes it as asked, and starts the one run. */
  lemma AnsweredRunOnNew(w: World, config: Config, call: Call, l: Loaded)
    requires w.script == [] && LoadedFrom(w, call, l) && call.squidId.None?
    requires Prepare(w, config, call, l).0.Quoted?
    ensures var plan := Prepare(w, config, call, l).0.plan;
      var (r, w') := RunNow(w, config, call, l);
      var n, row := w.nextId, TaskParams(l.schema, InputSent(call, l));
      && r == Started(n + 1, n, CreatedRow, Some(1), 0)
      && n in w'.squids && w'.squids == w.squids[n := w'.squids[n]]
      && w'.squids[n].crawler == l.scraper && w'.squids[n].tasks == [SavedTask(Some(row))]
      && w'.squids[n].name == (if w.autoName != "" then w.autoName else if l.crawler.name != "" then l.crawler.name else l.scraper)
      && w'.squids[n].params == EffectiveSettings(call, l) && w'.squids[n].accounts == plan.accounts.GetOr([])
      && w'.runs == w.runs + [Run(n + 1, n, [SavedTask(Some(row))], EffectiveSettings(call, l))]
  {
    PlanIsSound(w, config, call, l);
    NewPrepareAnswered(w, config, call, l);
    hide Prepare, CommitReused;
    AnsweredNew(w, Prepare(w, config, call, l).0.plan);
  }

  lemma NewPrepareAnswered(w: World, config: Config, call: Call, l: Loaded)
    requires w.script == [] && LoadedFrom(w, call, l) && call.squidId.None?
    requires Prepare(w, config, call, l).0.Quoted?
    ensures Prepare(w, config, call, l).1 == w && Prepare(w, config, call, l).0.plan.crawlerId == l.scraper
  {
  }

  lemma AnsweredNew(w: World, plan: Plan)
    requires w.script == [] && Planned(plan) && plan.squid.None?
    ensures var (r, w') := WriteAndStart(w, plan);
      var n := w.nextId;
      && r == Started(n + 1, n, CreatedRow, Some(1), 0)
      && n in w'.squids && w'.squids == w.squids[n := w'.squids[n]]
      && w'.squids[n].crawler == plan.crawlerId && w'.squids[n].tasks == [SavedTask(Some(plan.row))]
      && w'.squids[n].name == (if w.autoName != "" then w.autoName else plan.update.name.value)
      && w'.squids[n].params == plan.update.params.value && w'.squids[n].accounts == plan.accounts.GetOr([])
      && w'.runs == w.runs + [Run(n + 1, n, [SavedTask(Some(plan.row))], plan.update.params.value)]
  {
    hide CommitReused;
    AddOneToNone(plan.row);
    var n := w.nextId;
    var s := Squid.Squid(plan.crawlerId, w.autoName, [], map[], [], NullShape);
    var update := NamedAs(plan, w.autoName).update;
    var s1 := Saved(s, update);
    var w1 := w.(squids := w.squids[n := s], nextId := n + 1);
    assert CreateSquid(w, plan.crawlerId, None) == (Ok, n, w1);
    var w2 := w1.(squids := w1.squids[n := s1]);
    assert UpdateSquid(w1, n, update) == (Ok, w2);
    var w3 := w2.(squids := w2.squids[n := s1.(tasks := [SavedTask(Some(plan.row))])]);
    assert AddTasks(w2, n, [plan.row]) == (Ok, w3);
    assert w3.squids == w.squids[n := w3.squids[n]];
  }

  // ---- up to the writes ----

  /** A call gets to its reads of accounts and rows exactly when it names something that exists, its input
      passes, and its key remembers no run. */
  lemma AnsweredCall(w: World, memory: Memory, config: Config, call: Call)
    requires w.script == []
    ensures var (load, w1) := LoadAll(w, call);
      var (r, w', m') := RunScraper(w, memory, config, call);
      && w1 == w
      && (load.LoadDone? <==>
            if call.squidId.None? then call.scraper.Some? && call.scraper.value in w.crawlers
            else call.squidId.value in w.squids && call.scraper.GetOr(w.squids[call.squidId.value].crawler) in w.crawlers)
      && (load.LoadDone? && InputErrors(call, load.loaded) == [] && Recall(memory, KeyOf(config, call, load.loaded), call.now).None? ==>
            r == RunNow(w, config, call, load.loaded).0 && w' == RunNow(w, config, call, load.loaded).1)
      && (!load.LoadDone? || InputErrors(call, load.loaded) != [] || Recall(memory, KeyOf(config, call, load.loaded), call.now).Some? ==>
            IsRefusal(r) || (r.Failed? && r.failure.error.code == NotFound))
  {
    hide RunNow, InputErrors, KeyOf, Translate;
  }

  /** The estimate a call is held to, on the rows its run would scrape. */
  function QuoteOf(w: World, call: Call, l: Loaded): (Estimate, nat)
    requires LoadedFrom(w, call, l)
  {
    var held := match call.squidId case Some(id) => |Listed(w.squids[id].tasks, w.listable)| case None => 0;
    var hasTask := TaskParams(l.schema, InputSent(call, l)) != map[];
    var rows := if call.squidId.None? || (hasTask && call.replaceTasks) then 1 else if hasTask then held + 1 else held;
    (EstimateOf(l.crawler.prices, if rows == 0 then 1 else rows, EffectiveSettings(call, l)), rows)
  }

  /** Once the accounts are settled, the only thing left to stop a call is its price: it goes ahead exactly
      when it is confirmed, or the price is known and within the threshold. */
  lemma ConfirmationIff(w: World, config: Config, call: Call, l: Loaded)
    requires w.script == [] && LoadedFrom(w, call, l) && ChooseAccounts(w, call, l).0.Attach?
    ensures var q := Prepare(w, config, call, l).0;
      var (e, rows) := QuoteOf(w, call, l);
      && (q.Quoted? <==> call.confirm || (e.credits.Some? && e.credits.value <= config.threshold))
      && (!q.Quoted? ==> q == QuoteStopped(NeedsConfirmation(e, Some(rows))))
      && (q.Quoted? ==> q.plan.accounts == ChooseAccounts(w, call, l).0.accounts)
  {
    hide EstimateOf, EffectiveSettings, TaskParams;
  }

  // ---- the tools beside it ----

  /** An account that is named, connected and of the platform is attached, and nothing else changes. */
  lemma AnsweredAttach(w: World, id: nat, account: string, platform: string)
    requires w.script == [] && id in w.squids && w.squids[id].shape != OddShape
    requires w.squids[id].crawler in w.crawlers && w.crawlers[w.squids[id].crawler].accountType == Some(platform)
    requires ResolveAccount(Find(w.accounts, account), platform) == Picked(account)
    ensures var s := w.squids[id];
      var ids := if account in s.accounts then s.accounts else s.accounts + [account];
      AttachAccount(w, id, Some(account)) == (Attached(account, ids), w.(squids := w.squids[id := s.(accounts := ids)]))
  {
    ReadsAllOrRefuses(w.squids[id].accounts, w.squids[id].shape);
    assert w.squids[id := w.squids[id].(accounts := w.squids[id].accounts)] == w.squids;
    assert w.(squids := w.squids) == w;
  }

  /** update_scraper merges the settings it is given, under the API's names, into the saved ones, and changes the
      name to the one given, if any; nothing else changes. */
  lemma AnsweredUpdate(w: World, id: nat, name: Option<string>, cfg: Settled)
    requires w.script == [] && id in w.squids && w.squids[id].crawler in w.crawlers && w.squids[id].crawler != ""
    requires !Empty(cfg)
    ensures var s := w.squids[id];
      var params := if s.crawler in w.crawlerParams then Some(w.crawlerParams[s.crawler]) else None;
      var wireNames := Translate(w.crawlers[s.crawler].items, params).wireNames;
      UpdateScraper(w, id, name, cfg) ==
        (Updated, w.(squids := w.squids[id := s.(name := if name.Some? then name.value else if s.name != "" then s.name else s.crawler,
                                                 params := SquidSettings.Merge(s.params, ApplyWireNames(cfg, wireNames)))]))
  {
    hide Translate, ApplyWireNames, SquidSettings.Merge;
  }

  /** create_squid with a configuration that passes makes one squid holding it, defaults filled in. */
  lemma AnsweredCreate(w: World, crawler: string, name: Option<string>, cfg: Settled)
    requires w.script == [] && crawler in w.crawlers && !Empty(cfg)
    requires var params := if crawler in w.crawlerParams then Some(w.crawlerParams[crawler]) else None;
      V.Errors(Flattened(cfg), Translate(w.crawlers[crawler].items, params), false) == []
    ensures var params := if crawler in w.crawlerParams then Some(w.crawlerParams[crawler]) else None;
      var t := Translate(w.crawlers[crawler].items, params);
      var (a, w') := CreateSquidTool(w, crawler, name, cfg);
      var n := w.nextId;
      && a == Created(n) && n in w'.squids && w'.squids == w.squids[n := w'.squids[n]]
      && w'.squids[n].crawler == crawler && w'.squids[n].tasks == [] && w'.squids[n].accounts == []
      && w'.squids[n].params == ApplyWireNames(WithDefaults(cfg, t, t.defaultsToFill), t.wireNames)
      && w'.squids[n].name == (if name.GetOr("") != "" then name.value else if w.autoName != "" then w.autoName else crawler)
  {
    hide Translate, ApplyWireNames;
    var params := if crawler in w.crawlerParams then Some(w.crawlerParams[crawler]) else None;
    var t := Translate(w.crawlers[crawler].items, params);
    var full := WithDefaults(cfg, t, t.defaultsToFill);
    DefaultsAdd(cfg, t, t.defaultsToFill);
    var given := GivenName(w, name);
    var s := Squid.Squid(crawler, given, [], map[], [], NullShape);
    assert CreateSquid(w, crawler, name) == (Ok, w.nextId, w.(squids := w.squids[w.nextId := s], nextId := w.nextId + 1));
    var s1 := Saved(s, Update(Some(OrElse(name.GetOr(""), OrElse(given, crawler))), Some(ApplyWireNames(full, t.wireNames)), None));
    assert w.squids[w.nextId := s][w.nextId := s1] == w.squids[w.nextId := s1];
  }

  lemma {:induction false} DefaultsAdd(cfg: Settled, t: Translated, defaults: Dicts.Dict<Dicts.Json>)
    requires !Empty(cfg)
    ensures !Empty(WithDefaults(cfg, t, defaults))
  {
    if defaults != [] {
      DefaultsAdd(cfg, t, defaults[..|defaults| - 1]);
    }
  }
}
