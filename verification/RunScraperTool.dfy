/** `run_scraper` and the tools beside it as they are executed: request after request against the API object
    and the idempotency store, each step proved to do what the functions of RunFlow and Primitives say. */
module RunScraperTool {
  import opened Wrappers
  import opened Dicts
  import Text
  import opened Errors
  import opened Accounts
  import opened Pricing
  import SquidSettings
  import opened Idempotency
  import opened SchemaTranslator
  import SchemaLoops
  import Routing
  import opened RemoteApi
  import opened RunFlow
  import opened Primitives
  import V = Validation

  /** `_snapshot_tasks`. */
  method SnapshotTasks(api: Api, id: nat) returns (snapshot: Snapshot)
    modifies api
    ensures (snapshot, api.world) == RunFlow.SnapshotTasks(old(api.world), id)
  {
    var tasks := api.ListTasks(id);
    if tasks.None? {
      return Unread;
    }
    var rows: seq<Row> := [];
    for i := 0 to |tasks.value|
      invariant rows == ReadableRows(tasks.value[..i])
      invariant (tasks, api.world) == ReadTasks(old(api.world), id)
    {
      assert tasks.value[..i + 1][..i] == tasks.value[..i];
      var task := tasks.value[i];
      if task.params.Some? && task.params.value != map[] {
        rows := rows + [task.params.value];
      }
    }
    assert tasks.value[..|tasks.value|] == tasks.value;
    snapshot := Rows(rows, |tasks.value|);
  }

  /** `_restore_tasks`. */
  method RestoreTasks(api: Api, id: nat, snapshot: Snapshot, failure: Failure) returns (out: Failure)
    modifies api
    ensures (out, api.world) == RunFlow.RestoreTasks(old(api.world), id, snapshot, failure)
  {
    out := failure.(squid := Some(id));
    if snapshot.Unread? {
      out := out.(tasksLost := Some(true));
      return;
    }
    if snapshot.rows == [] {
      out := out.(tasksLost := Some(false), restored := Some(0));
      return;
    }
    var o := api.Add(id, snapshot.rows);
    if !o.Ok? {
      out := out.(tasksLost := Some(true), lostTasks := Some(snapshot.rows));
      return;
    }
    out := out.(tasksLost := Some(false), restored := Some(|snapshot.rows|));
  }

  /** `_replace_squid_input`. */
  method ReplaceSquidInput(api: Api, id: nat, u: Update, row: Row, snapshot: Snapshot) returns (failure: Option<Failure>)
    modifies api
    ensures (failure, api.world) == ReplaceInput(old(api.world), id, u, row, snapshot)
  {
    var o := api.Update(id, u);
    if !o.Ok? {
      return Some(JustError(Briefly(o)).(squid := Some(id), tasksLost := Some(false)));
    }
    o := api.Empty(id);
    if !o.Ok? {
      var f := RestoreTasks(api, id, snapshot, JustError(Briefly(o)));
      return Some(f);
    }
    o := api.Add(id, [row]);
    if !o.Ok? {
      var f := RestoreTasks(api, id, snapshot, JustError(Briefly(o)));
      return Some(f);
    }
    failure := None;
  }

  /** `_save_squid_input`. */
  method SaveSquidInput(api: Api, id: nat, u: Update, row: Row) returns (failure: Option<Failure>)
    modifies api
    ensures (failure, api.world) == SaveInput(old(api.world), id, u, row)
  {
    var o := api.Update(id, u);
    if !o.Ok? {
      return Some(JustError(Briefly(o)).(squid := Some(id), tasksLost := Some(false)));
    }
    if row == map[] {
      return None;
    }
    o := api.Add(id, [row]);
    if !o.Ok? {
      return Some(JustError(Briefly(o)).(squid := Some(id), tasksLost := Some(false)));
    }
    failure := None;
  }

  /** `_new_squid_write_failed`. */
  method NewSquidWriteFailed(api: Api, id: nat, o: Outcome) returns (f: Failure)
    requires o.ApiError?
    modifies api
    ensures (f, api.world) == NewSquidFailed(old(api.world), id, o)
  {
    var d := api.Delete(id);
    f := JustError(Describe(o, true)).(squid := Some(id), deleted := Some(d.Ok?));
  }

  /** The crawler, its parameters if they can be had, and the schema the input is read by. */
  method LoadCrawler(api: Api, existing: Option<Squid>, scraper: string) returns (load: Load)
    modifies api
    ensures (load, api.world) == LoadScraper(old(api.world), existing, scraper)
  {
    var o, crawler := api.GetCrawler(scraper);
    if !o.Ok? {
      return LoadStopped(Raised(o));
    }
    var params := api.GetCrawlerParams(scraper);
    var schema := SchemaLoops.TranslateInputSchema(crawler.value.items, params);
    load := LoadDone(Loaded(existing, scraper, crawler.value, schema));
  }

  method LoadCall(api: Api, call: Call) returns (load: Load)
    modifies api
    ensures (load, api.world) == LoadAll(old(api.world), call)
  {
    if call.squidId.None? {
      if call.scraper.None? {
        return LoadStopped(InvalidRequest);
      }
      load := LoadCrawler(api, None, call.scraper.value);
    } else {
      var o, existing := api.GetSquid(call.squidId.value);
      if !o.Ok? {
        return LoadStopped(Raised(o));
      }
      load := LoadCrawler(api, existing, call.scraper.GetOr(existing.value.crawler));
    }
  }

  /** The account to save with the squid, if one is needed and can be told. */
  method ResolveAccounts(api: Api, call: Call, l: Loaded) returns (choice: AccountChoice)
    modifies api
    ensures (choice, api.world) == ChooseAccounts(old(api.world), call, l)
  {
    var current := Some([]);
    if l.existing.Some? {
      current := AccountIds(Shown(l.existing.value.accounts, l.existing.value.shape));
      if current.None? {
        return AccountStop(AccountsUnreadable(call.squidId.GetOr(0)));
      }
    }
    if l.crawler.accountType.None? {
      return if call.accountId.Some? then AccountStop(NoAccountNeeded) else Attach(None);
    }
    var platform := l.crawler.accountType.value;
    if call.accountId.Some? {
      var o, accounts := api.ListAccounts();
      if o.NoAnswer? {
        return AccountStop(Raised(o));
      }
      match ResolveAccount(if o.Ok? then Find(accounts, call.accountId.value) else None, platform)
      case Refused(e) => return AccountStop(AccountRefused(e));
      case Picked(id) => return Attach(if id in current.value then None else Some(current.value + [id]));
    } else if current.value == [] {
      var o, accounts := api.ListAccounts();
      if !o.Ok? {
        return AccountStop(Raised(o));
      }
      match PickOrExplain(accounts, platform)
      case Refused(e) => return AccountStop(AccountRefused(e));
      case Picked(id) => return Attach(Some([id]));
    }
    choice := Attach(None);
  }

  /** The rows, the quote, the confirmation and the balance. */
  method QuoteCall(api: Api, config: Config, call: Call, l: Loaded, accounts: Option<seq<string>>) returns (q: Quote)
    modifies api
    ensures (q, api.world) == QuoteRun(old(api.world), config, call, l, accounts)
  {
    var taskParams, squidParams := Routing.RouteInput(l.schema, InputSent(call, l));
    var snapshot := Unread;
    if call.squidId.Some? {
      snapshot := SnapshotTasks(api, call.squidId.value);
    }
    var rows := RowsThisRun(call.squidId.Some?, taskParams != map[], call.replaceTasks, snapshot);
    var effective := SquidSettings.Merge(if l.existing.Some? then l.existing.value.params else map[], squidParams);
    var estimate := EstimateCost(l.crawler.prices, if rows.None? || rows.value == 0 then 1 else rows.value, effective);
    if !call.confirm && (estimate.credits.None? || estimate.credits.value > config.threshold) {
      return QuoteStopped(NeedsConfirmation(estimate, rows));
    }
    var o := api.GetBalance();
    if !o.Ok? {
      return QuoteStopped(Raised(o));
    }
    var name := OrElse(if l.existing.Some? then l.existing.value.name else "", OrElse(l.crawler.name, l.scraper));
    var params := if l.existing.Some? then effective else squidParams;
    q := Quoted(Plan(call.squidId, l.scraper, InputSent(call, l) != [], call.replaceTasks,
                     Update(Some(name), Some(params), accounts), taskParams, accounts, snapshot));
  }

  /** The writes on a saved squid. */
  method WriteReused(api: Api, id: nat, plan: Plan) returns (c: Committed)
    modifies api
    ensures (c, api.world) == CommitReused(old(api.world), id, plan)
  {
    var known := if plan.snapshot.Rows? then Some(plan.snapshot.total) else None;
    if plan.hasInput {
      if plan.replaceTasks {
        var failure := ReplaceSquidInput(api, id, plan.update, plan.row, plan.snapshot);
        if failure.Some? {
          return CommitStopped(Failed(failure.value));
        }
        return Ready(id, ReplacedRows, Some(1), if known.Some? then known.value else 0);
      }
      if plan.snapshot.Unread? && plan.row != map[] {
        return CommitStopped(TasksUnreadable(id));
      } else if plan.snapshot.Rows? && plan.row != map[] && plan.snapshot.total > 0 {
        return CommitStopped(SquidHasTasks(id, plan.snapshot.total));
      }
      var failure := SaveSquidInput(api, id, plan.update, plan.row);
      if failure.Some? {
        return CommitStopped(Failed(failure.value));
      }
      return if plan.row != map[] then Ready(id, AddedRow, Some(1), 0) else Ready(id, UnchangedRows, known, 0);
    } else if plan.accounts.Some? {
      var o := api.Update(id, Update(None, None, plan.accounts));
      if !o.Ok? {
        return CommitStopped(Raised(o));
      }
    }
    c := Ready(id, UnchangedRows, known, 0);
  }

  /** The writes that make a new squid. */
  method WriteNew(api: Api, plan: Plan) returns (c: Committed)
    modifies api
    ensures (c, api.world) == CommitNew(old(api.world), plan)
  {
    var o, id, given := api.Create(plan.crawlerId, None);
    if !o.Ok? {
      return CommitStopped(Raised(o));
    }
    o := api.Update(id, plan.update.(name := Some(if given != "" then given else plan.update.name.GetOr(""))));
    if o.Ok? {
      o := api.Add(id, [plan.row]);
    }
    if o.ApiError? {
      var f := NewSquidWriteFailed(api, id, o);
      return CommitStopped(Failed(f));
    } else if o.NoAnswer? {
      return CommitStopped(Failed(JustError(Describe(o, true)).(squid := Some(id))));
    }
    c := Ready(id, CreatedRow, Some(1), 0);
  }

  method LaunchRun(api: Api, plan: Plan, c: Committed) returns (r: Response)
    requires c.Ready?
    modifies api
    ensures (r, api.world) == Launch(old(api.world), plan, c)
  {
    var o, run := api.Start(c.squid);
    if o.Ok? {
      return Started(run, c.squid, c.action, c.taskCount, c.replaced);
    }
    var failed := JustError(Describe(o, true)).(squid := Some(c.squid), action := Some(c.action), taskCount := c.taskCount);
    if c.action == ReplacedRows {
      failed := RestoreTasks(api, c.squid, plan.snapshot, failed);
    }
    r := Failed(failed);
  }

  method ReadAndWrite(api: Api, config: Config, call: Call, l: Loaded) returns (r: Response)
    modifies api
    ensures (r, api.world) == RunNow(old(api.world), config, call, l)
  {
    var choice := ResolveAccounts(api, call, l);
    if choice.AccountStop? {
      return choice.response;
    }
    var q := QuoteCall(api, config, call, l, choice.accounts);
    if q.QuoteStopped? {
      return q.response;
    }
    var c;
    if q.plan.squid.Some? {
      c := WriteReused(api, q.plan.squid.value, q.plan);
    } else {
      c := WriteNew(api, q.plan);
    }
    if c.CommitStopped? {
      return c.response;
    }
    r := LaunchRun(api, q.plan, c);
  }

  /** `run_scraper_impl`. */
  method RunScraper(api: Api, config: Config, store: IdempotencyStore, call: Call) returns (r: Response)
    requires store.ttl == config.defaultTtl
    modifies api, store
    ensures (r, api.world, store.entries) == RunFlow.RunScraper(old(api.world), old(store.entries), config, call)
  {
    var load := LoadCall(api, call);
    if load.LoadStopped? {
      return load.response;
    }
    var l := load.loaded;
    if call.input != [] || call.squidId.None? {
      var errors := V.ValidateInput(call.input, l.schema, call.squidId.None? || Routing.HasTaskInput(l.schema, call.input));
      if errors != [] {
        return ValidationFailed(errors);
      }
    }
    var key := KeyOf(config, call, l);
    var known := store.Get(key, call.now);
    if known.Some? {
      return AlreadySubmitted(known.value);
    }
    r := ReadAndWrite(api, config, call, l);
    if r.Started? {
      store.Put(key, r.run, TtlOf(call), call.doneAt);
    }
  }

  /** `attach_account_impl`. */
  method AttachAccount(api: Api, id: nat, named: Option<string>) returns (a: Primitives.AttachAnswer)
    modifies api
    ensures (a, api.world) == Primitives.AttachAccount(old(api.world), id, named)
  {
    var o, squid := api.GetSquid(id);
    if !o.Ok? {
      return AttachFailed(Describe(o, true));
    }
    var o2, crawler := api.GetCrawler(squid.value.crawler);
    if !o2.Ok? {
      return AttachFailed(Describe(o2, true));
    }
    if crawler.value.accountType.None? {
      return NoLoginNeeded;
    }
    var platform := crawler.value.accountType.value;
    var current := AccountIds(Shown(squid.value.accounts, squid.value.shape));
    if current.None? {
      return ListUnreadable;
    }
    if named.None? && current.value != [] {
      return AlreadyAttached(current.value);
    }
    var o3, accounts := api.ListAccounts();
    if o3.NoAnswer? || (named.None? && !o3.Ok?) {
      return AttachFailed(Describe(o3, true));
    }
    var pick := if named.None? then PickOrExplain(accounts, platform)
                else ResolveAccount(if o3.Ok? then Find(accounts, named.value) else None, platform);
    if pick.Refused? {
      return Explained(pick.error);
    }
    if pick.id in current.value {
      return Attached(pick.id, current.value);
    }
    var o4 := api.Update(id, Update(None, None, Some(current.value + [pick.id])));
    a := if o4.Ok? then Attached(pick.id, current.value + [pick.id]) else AttachFailed(Describe(o4, true));
  }

  /** `_translated_schema`. */
  method TranslatedSchema(api: Api, crawler: string) returns (t: Option<Translated>)
    modifies api
    ensures (t, api.world) == ReadSchema(old(api.world), crawler)
  {
    var o, c := api.GetCrawler(crawler);
    if !o.Ok? {
      return None;
    }
    var params := api.GetCrawlerParams(crawler);
    var schema := SchemaLoops.TranslateInputSchema(c.value.items, params);
    t := Some(schema);
  }

  /** The loop of `_apply_wire_names`. */
  method RenameAll(d: Dict<Json>, wireNames: map<string, string>) returns (out: Settings)
    ensures out == Renamed(d, wireNames)
  {
    out := map[];
    for i := 0 to |d|
      invariant out == Renamed(d[..i], wireNames)
    {
      assert d[..i + 1][..i] == d[..i];
      out := out[(if d[i].key in wireNames then wireNames[d[i].key] else d[i].key) := d[i].value];
    }
    assert d[..|d|] == d;
  }

  method WireNamed(cfg: Settled, wireNames: map<string, string>) returns (out: Settings)
    ensures out == ApplyWireNames(cfg, wireNames)
  {
    out := RenameAll(cfg.flat, wireNames);
    if cfg.functions.Some? {
      var functions := RenameAll(cfg.functions.value, wireNames);
      out := out["functions" := JDict(functions)];
    }
  }

  /** `update_scraper_impl`. */
  method UpdateScraper(api: Api, id: nat, name: Option<string>, cfg: Settled) returns (a: Primitives.UpdateAnswer)
    modifies api
    ensures (a, api.world) == Primitives.UpdateScraper(old(api.world), id, name, cfg)
  {
    if name.None? && Empty(cfg) {
      return NothingToUpdate;
    }
    var wireNames: map<string, string> := map[];
    var found: Option<Squid> := None;
    var o, squid := api.GetSquid(id);
    if o.Ok? {
      found := squid;
      if squid.value.crawler != "" {
        var t := TranslatedSchema(api, squid.value.crawler);
        wireNames := WireNamesOf(t);
      }
    }
    var body := Update(name, None, None);
    if !Empty(cfg) {
      var saved := if found.Some? then found.value.params else map[];
      var asked := WireNamed(cfg, wireNames);
      var fallback := if found.Some? then OrElse(found.value.name, OrElse(found.value.crawler, Text.OfNat(id))) else Text.OfNat(id);
      body := Update(Some(name.GetOr(fallback)), Some(SquidSettings.Merge(saved, asked)), None);
    }
    o := api.Update(id, body);
    a := if o.Ok? then Updated else UpdateFailed(Describe(o, true));
  }

  /** `create_squid_impl`. */
  method CreateSquid(api: Api, crawler: string, name: Option<string>, cfg: Settled) returns (a: Primitives.CreateAnswer)
    modifies api
    ensures (a, api.world) == CreateSquidTool(old(api.world), crawler, name, cfg)
  {
    var full, wireNames := cfg, map[];
    if !Empty(cfg) {
      var t := TranslatedSchema(api, crawler);
      if t.Some? {
        wireNames := t.value.wireNames;
        var errors := V.ValidateInput(Flattened(cfg), t.value, false);
        if errors != [] {
          return ConfigRefused(errors);
        }
        full := FillDefaults(cfg, t.value);
      }
    }
    var o, id, given := api.Create(crawler, name);
    if !o.Ok? {
      return CreateFailed(JustError(Describe(o, true)));
    }
    if Empty(full) {
      return Created(id);
    }
    var params := WireNamed(full, wireNames);
    o := api.Update(id, Update(Some(OrElse(name.GetOr(""), OrElse(given, crawler))), Some(params), None));
    if o.ApiError? {
      var f := NewSquidWriteFailed(api, id, o);
      return CreateFailed(f);
    } else if o.NoAnswer? {
      return CreateFailed(JustError(Briefly(o)).(squid := Some(id)));
    }
    a := Created(id);
  }

  method FillDefaults(cfg: Settled, t: Translated) returns (full: Settled)
    ensures full == WithDefaults(cfg, t, t.defaultsToFill)
  {
    var defaults := t.defaultsToFill;
    full := cfg;
    for i := 0 to |defaults|
      invariant full == WithDefaults(cfg, t, defaults[..i])
    {
      assert defaults[..i + 1][..i] == defaults[..i];
      var d := defaults[i];
      var level := if d.key in t.levels then Some(t.levels[d.key]) else None;
      if level != Some(Task) {
        if level == Some(Function) {
          if full.functions.None? {
            full := full.(functions := Some([]));
          }
          if !HasKey(full.functions.value, d.key) {
            full := full.(functions := Some(full.functions.value + [d]));
          }
        } else if !HasKey(full.flat, d.key) {
          full := full.(flat := full.flat + [d]);
        }
      }
    }
    assert defaults[..|defaults|] == defaults;
  }
}
