/** `run_scraper`, step by step: what it reads, when it refuses, what it writes and in which order, and
    what it tells the caller. */
module RunFlow {
  import opened Wrappers
  import opened Dicts
  import Text
  import opened Errors
  import opened Accounts
  import opened Pricing
  import SquidSettings
  import opened Idempotency
  import SchemaTranslator
  import opened Routing
  import opened RemoteApi
  import V = Validation

  /** One call.  `now` is when the idempotency store is consulted, `doneAt` when it is written. */
  datatype Call = Call(scraper: Option<string>, input: Dict<Json>, confirm: bool, idempotencyKey: Option<string>,
                       squidId: Option<nat>, accountId: Option<string>, replaceTasks: bool,
                       scope: string, now: real, doneAt: real)

  datatype Config = Config(threshold: real, digest: Digest, defaultTtl: real)

  /** The rows a squid held before anything was written, or that they could not be listed. */
  datatype Snapshot = Unread | Rows(rows: seq<Row>, total: nat)

  datatype TasksAction = CreatedRow | ReplacedRows | AddedRow | UnchangedRows

  datatype Failure = Failure(error: ErrorInfo, squid: Option<nat>, tasksLost: Option<bool>,
                             lostTasks: Option<seq<Row>>, restored: Option<nat>, deleted: Option<bool>,
                             action: Option<TasksAction>, taskCount: Option<nat>)

  datatype Response =
    | InvalidRequest
    | ValidationFailed(errors: seq<V.Error>)
    | AlreadySubmitted(run: nat)
    | AccountsUnreadable(squid: nat)
    | NoAccountNeeded
    | AccountRefused(reason: AccountError)
    | NeedsConfirmation(estimate: Estimate, rowsThisRun: Option<nat>)
    | TasksUnreadable(squid: nat)
    | SquidHasTasks(squid: nat, existing: nat)
    | Failed(failure: Failure)
    | Started(run: nat, squid: nat, action: TasksAction, taskCount: Option<nat>, replaced: nat)

  function JustError(e: ErrorInfo): Failure {
    Failure(e, None, None, None, None, None, None, None)
  }

  /** What the `structured` wrapper makes of an error no handler took. */
  function Raised(o: Outcome): Response
    requires !o.Ok?
  {
    Failed(JustError(Describe(o, true)))
  }

  /** The envelope of the handlers that do not say what became of the request. */
  function Briefly(o: Outcome): ErrorInfo
    requires !o.Ok?
  {
    if o.ApiError? then Describe(o, true) else ErrorInfo(UpstreamUnavailable, None, None)
  }

  // ---- the saved rows ----

  function ReadableRows(tasks: seq<SavedTask>): seq<Row> {
    if tasks == [] then []
    else
      var before, last := ReadableRows(tasks[..|tasks| - 1]), tasks[|tasks| - 1];
      if Readable(last) then before + [last.params.value] else before
  }

  function SnapshotTasks(w: World, id: nat): (Snapshot, World) {
    var (tasks, w') := ReadTasks(w, id);
    (if tasks.None? then Unread else Rows(ReadableRows(tasks.value), |tasks.value|), w')
  }

  /** Putting the rows back after a rewrite failed past the point of no return. */
  function RestoreTasks(w: World, id: nat, snapshot: Snapshot, failure: Failure): (Failure, World) {
    var out := failure.(squid := Some(id));
    if snapshot.Unread? then (out.(tasksLost := Some(true)), w)
    else if snapshot.rows == [] then (out.(tasksLost := Some(false), restored := Some(0)), w)
    else
      var (o, w') := AddTasks(w, id, snapshot.rows);
      if o.Ok? then (out.(tasksLost := Some(false), restored := Some(|snapshot.rows|)), w')
      else (out.(tasksLost := Some(true), lostTasks := Some(snapshot.rows)), w')
  }

  /** The last step of the rewrite: the new row. */
  function AddOrRestore(w: World, id: nat, row: Row, snapshot: Snapshot): (Option<Failure>, World) {
    var (o, w1) := AddTasks(w, id, [row]);
    if o.Ok? then (None, w1)
    else
      var (f, w2) := RestoreTasks(w1, id, snapshot, JustError(Briefly(o)));
      (Some(f), w2)
  }

  /** The point of no return: even an emptying that was refused may have gone through. */
  function EmptyAndAdd(w: World, id: nat, row: Row, snapshot: Snapshot): (Option<Failure>, World) {
    var (o, w1) := EmptySquid(w, id);
    if o.Ok? then AddOrRestore(w1, id, row, snapshot)
    else
      var (f, w2) := RestoreTasks(w1, id, snapshot, JustError(Briefly(o)));
      (Some(f), w2)
  }

  /** The destructive rewrite: settings first, then the emptying, then the new row. */
  function ReplaceInput(w: World, id: nat, u: Update, row: Row, snapshot: Snapshot): (Option<Failure>, World) {
    var (o, w1) := UpdateSquid(w, id, u);
    if o.Ok? then EmptyAndAdd(w1, id, row, snapshot)
    else (Some(JustError(Briefly(o)).(squid := Some(id), tasksLost := Some(false))), w1)
  }

  /** The rewrite that deletes nothing. */
  function SaveInput(w: World, id: nat, u: Update, row: Row): (Option<Failure>, World) {
    var (o1, w1) := UpdateSquid(w, id, u);
    if !o1.Ok? then (Some(JustError(Briefly(o1)).(squid := Some(id), tasksLost := Some(false))), w1)
    else if row == map[] then (None, w1)
    else
      var (o2, w2) := AddTasks(w1, id, [row]);
      if !o2.Ok? then (Some(JustError(Briefly(o2)).(squid := Some(id), tasksLost := Some(false))), w2)
      else (None, w2)
  }

  /** A write on a squid this call created was rejected: the squid is deleted. */
  function NewSquidFailed(w: World, id: nat, o: Outcome): (Failure, World)
    requires o.ApiError?
  {
    var (d, w') := DeleteSquid(w, id);
    (JustError(Describe(o, true)).(squid := Some(id), deleted := Some(d.Ok?)), w')
  }

  /** How many rows the run will scrape; unknown when they could not be read. */
  function RowsThisRun(reuse: bool, hasTaskInput: bool, replaceTasks: bool, snapshot: Snapshot): Option<nat> {
    if !reuse then Some(1)
    else if snapshot.Unread? then None
    else if !hasTaskInput then Some(snapshot.total)
    else if replaceTasks then Some(1)
    else Some(if snapshot.total > 0 then snapshot.total + 1 else 1)
  }

  // ---- before anything is written ----

  /** What the call is about, once it has been read. */
  datatype Loaded = Loaded(existing: Option<Squid>, scraper: string, crawler: Crawler, schema: SchemaTranslator.Translated)

  datatype Load = LoadStopped(response: Response) | LoadDone(loaded: Loaded)

  function LoadScraper(w: World, existing: Option<Squid>, scraper: string): (Load, World) {
    var (o, w1) := ReadCrawler(w, scraper);
    if !o.Ok? then (LoadStopped(Raised(o)), w1)
    else
      var crawler := w.crawlers[scraper];
      var (params, w2) := ReadParams(w1, scraper);
      (LoadDone(Loaded(existing, scraper, crawler, SchemaTranslator.Translate(crawler.items, params))), w2)
  }

  function LoadAll(w: World, call: Call): (Load, World) {
    match call.squidId
    case None =>
      if call.scraper.None? then (LoadStopped(InvalidRequest), w) else LoadScraper(w, None, call.scraper.value)
    case Some(id) =>
      var (o, w1) := ReadSquid(w, id);
      if !o.Ok? then (LoadStopped(Raised(o)), w1)
      else LoadScraper(w1, Some(w.squids[id]), call.scraper.GetOr(w.squids[id].crawler))
  }

  /** Required fields are not asked for when only settings of a reused squid change. */
  function InputErrors(call: Call, l: Loaded): seq<V.Error> {
    if call.input == [] && call.squidId.Some? then []
    else V.Errors(call.input, l.schema, call.squidId.None? || HasTaskInput(l.schema, call.input))
  }

  /** A new squid is sent the declared defaults too. */
  function InputSent(call: Call, l: Loaded): Dict<Json> {
    if call.squidId.None? then V.Filled(l.schema, call.input) else call.input
  }

  function TargetText(call: Call, l: Loaded): string {
    match call.squidId
    case Some(id) => Text.OfNat(id)
    case None => l.scraper
  }

  function KeyOf(config: Config, call: Call, l: Loaded): string {
    match call.idempotencyKey
    case Some(k) => ExplicitKey(call.scope, k)
    case None => DerivedKey(config.digest, call.scope, TargetText(call, l), ToMap(InputSent(call, l)))
  }

  function TtlOf(call: Call): Option<real> {
    if call.idempotencyKey.Some? then None else Some(DERIVED_TTL)
  }

  /** The accounts to save with the squid, if any, or why the call stops. */
  datatype AccountChoice = AccountStop(response: Response) | Attach(accounts: Option<seq<string>>)

  function ChooseAccounts(w: World, call: Call, l: Loaded): (AccountChoice, World) {
    var current := if l.existing.Some? then AccountIds(Shown(l.existing.value.accounts, l.existing.value.shape)) else Some([]);
    if current.None? then (AccountStop(AccountsUnreadable(call.squidId.GetOr(0))), w)
    else match l.crawler.accountType
      case None => (if call.accountId.Some? then AccountStop(NoAccountNeeded) else Attach(None), w)
      case Some(platform) =>
        if call.accountId.Some? then
          var (o, w') := ReadOther(w);
          if o.NoAnswer? then (AccountStop(Raised(o)), w')
          else match ResolveAccount(if o.Ok? then Find(w.accounts, call.accountId.value) else None, platform)
            case Refused(e) => (AccountStop(AccountRefused(e)), w')
            case Picked(id) => (Attach(if id in current.value then None else Some(current.value + [id])), w')
        else if current.value == [] then
          var (o, w') := ReadOther(w);
          if !o.Ok? then (AccountStop(Raised(o)), w')
          else match PickOrExplain(w.accounts, platform)
            case Refused(e) => (AccountStop(AccountRefused(e)), w')
            case Picked(id) => (Attach(Some([id])), w')
        else (Attach(None), w)
  }

  /** Everything the writes need. */
  datatype Plan = Plan(squid: Option<nat>, crawlerId: string, hasInput: bool, replaceTasks: bool, update: Update,
                       row: Row, accounts: Option<seq<string>>, snapshot: Snapshot)

  datatype Quote = QuoteStopped(response: Response) | Quoted(plan: Plan)

  function OrElse(a: string, b: string): string {
    if a != "" then a else b
  }

  /** The settings the run executes under. */
  function EffectiveSettings(call: Call, l: Loaded): Settings {
    SquidSettings.Merge(if l.existing.Some? then l.existing.value.params else map[], SquidParamsOf(l.schema, InputSent(call, l)))
  }

  function PlanFor(call: Call, l: Loaded, accounts: Option<seq<string>>, snapshot: Snapshot): Plan {
    var input := InputSent(call, l);
    Plan(call.squidId, l.scraper, input != [], call.replaceTasks,
         Update(Some(OrElse(if l.existing.Some? then l.existing.value.name else "", OrElse(l.crawler.name, l.scraper))),
                Some(if l.existing.Some? then EffectiveSettings(call, l) else SquidParamsOf(l.schema, input)), accounts),
         TaskParams(l.schema, input), accounts, snapshot)
  }

  /** Reads the rows, quotes the whole run, asks for confirmation, reads the balance. */
  function QuoteRun(w: World, config: Config, call: Call, l: Loaded, accounts: Option<seq<string>>): (Quote, World) {
    var reuse := call.squidId.Some?;
    var (snapshot, w1) := if reuse then SnapshotTasks(w, call.squidId.value) else (Unread, w);
    var rows := RowsThisRun(reuse, TaskParams(l.schema, InputSent(call, l)) != map[], call.replaceTasks, snapshot);
    var quoted := if rows.None? || rows.value == 0 then 1 else rows.value;
    var estimate := EstimateOf(l.crawler.prices, quoted, EffectiveSettings(call, l));
    if !call.confirm && (estimate.credits.None? || estimate.credits.value > config.threshold) then
      (QuoteStopped(NeedsConfirmation(estimate, rows)), w1)
    else
      var (o, w2) := ReadOther(w1);
      if !o.Ok? then (QuoteStopped(Raised(o)), w2)
      else (Quoted(PlanFor(call, l, accounts, snapshot)), w2)
  }

  // ---- the writes ----

  datatype Committed =
    | CommitStopped(response: Response)
    | Ready(squid: nat, action: TasksAction, taskCount: Option<nat>, replaced: nat)

  function CommitReused(w: World, id: nat, plan: Plan): (Committed, World) {
    var known := if plan.snapshot.Rows? then Some(plan.snapshot.total) else None;
    if !plan.hasInput then
      if plan.accounts.None? then (Ready(id, UnchangedRows, known, 0), w)
      else
        var (o, w') := UpdateSquid(w, id, Update(None, None, plan.accounts));
        (if o.Ok? then Ready(id, UnchangedRows, known, 0) else CommitStopped(Raised(o)), w')
    else if plan.replaceTasks then
      var (failure, w') := ReplaceInput(w, id, plan.update, plan.row, plan.snapshot);
      (if failure.Some? then CommitStopped(Failed(failure.value))
       else Ready(id, ReplacedRows, Some(1), if known.Some? then known.value else 0), w')
    else if plan.snapshot.Unread? && plan.row != map[] then (CommitStopped(TasksUnreadable(id)), w)
    else if plan.snapshot.Rows? && plan.row != map[] && plan.snapshot.total > 0 then
      (CommitStopped(SquidHasTasks(id, plan.snapshot.total)), w)
    else
      var (failure, w') := SaveInput(w, id, plan.update, plan.row);
      (if failure.Some? then CommitStopped(Failed(failure.value))
       else if plan.row != map[] then Ready(id, AddedRow, Some(1), 0)
       else Ready(id, UnchangedRows, known, 0), w')
  }

  /** The two writes on a squid just created; the second is not tried when the first failed. */
  function FillNew(w: World, id: nat, plan: Plan): (Outcome, World) {
    var (o, w1) := UpdateSquid(w, id, plan.update);
    if o.Ok? then AddTasks(w1, id, [plan.row]) else (o, w1)
  }

  /** A new squid that the API has named keeps that name. */
  function NamedAs(plan: Plan, given: string): Plan {
    plan.(update := plan.update.(name := Some(OrElse(given, plan.update.name.GetOr("")))))
  }

  function CommitNew(w: World, plan: Plan): (Committed, World) {
    var (o, id, w1) := CreateSquid(w, plan.crawlerId, None);
    if !o.Ok? then (CommitStopped(Raised(o)), w1)
    else
      var (o2, w2) := FillNew(w1, id, NamedAs(plan, GivenName(w, None)));
      if o2.Ok? then (Ready(id, CreatedRow, Some(1), 0), w2)
      else if o2.ApiError? then
        var (f, w3) := NewSquidFailed(w2, id, o2);
        (CommitStopped(Failed(f)), w3)
      else (CommitStopped(Failed(JustError(Describe(o2, true)).(squid := Some(id)))), w2)
  }

  function Commit(w: World, plan: Plan): (Committed, World) {
    if plan.squid.Some? then CommitReused(w, plan.squid.value, plan) else CommitNew(w, plan)
  }

  /** Only the start itself can still fail; a rewrite that already deleted the rows is undone then. */
  function Launch(w: World, plan: Plan, c: Committed): (Response, World)
    requires c.Ready?
  {
    var (o, run, w1) := StartRun(w, c.squid);
    if o.Ok? then (Started(run, c.squid, c.action, c.taskCount, c.replaced), w1)
    else
      var failed := JustError(Describe(o, true)).(squid := Some(c.squid), action := Some(c.action), taskCount := c.taskCount);
      if c.action == ReplacedRows then
        var (f, w2) := RestoreTasks(w1, c.squid, plan.snapshot, failed);
        (Failed(f), w2)
      else (Failed(failed), w1)
  }

  function WriteAndStart(w: World, plan: Plan): (Response, World) {
    var (c, w1) := Commit(w, plan);
    if c.CommitStopped? then (c.response, w1) else Launch(w1, plan, c)
  }

  /** The reads, checks and refusals, and the plan if there is nothing to refuse. */
  function Prepare(w: World, config: Config, call: Call, l: Loaded): (Quote, World) {
    var (choice, w1) := ChooseAccounts(w, call, l);
    if choice.AccountStop? then (QuoteStopped(choice.response), w1)
    else QuoteRun(w1, config, call, l, choice.accounts)
  }

  function RunNow(w: World, config: Config, call: Call, l: Loaded): (Response, World) {
    var (q, w1) := Prepare(w, config, call, l);
    if q.QuoteStopped? then (q.response, w1) else WriteAndStart(w1, q.plan)
  }

  /** `run_scraper_impl`. */
  function RunScraper(w: World, memory: Memory, config: Config, call: Call): (Response, World, Memory) {
    var (load, w1) := LoadAll(w, call);
    if load.LoadStopped? then (load.response, w1, memory)
    else
      var l := load.loaded;
      var errors := InputErrors(call, l);
      if errors != [] then (ValidationFailed(errors), w1, memory)
      else
        var key := KeyOf(config, call, l);
        var known := Recall(memory, key, call.now);
        var memory' := AfterRecall(memory, key, call.now);
        if known.Some? then (AlreadySubmitted(known.value), w1, memory')
        else
          var (r, w2) := RunNow(w1, config, call, l);
          (r, w2, if r.Started? then Remember(memory', key, r.run, TtlOf(call), config.defaultTtl, call.doneAt) else memory')
  }
}
