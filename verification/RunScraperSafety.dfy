/** What `run_scraper` guarantees, over every script of answers, rejections and lost requests. */
module RunScraperSafety {
  import opened Wrappers
  import opened Errors
  import Pricing
  import SquidSettings
  import Routing
  import opened RemoteApi
  import opened RunFlow

  // ---- before the first write ----

  lemma LoadScraperIsQuiet(w: World, existing: Option<Squid>, scraper: string)
    ensures var (load, w') := LoadScraper(w, existing, scraper);
      && Unchanged(w, w')
      && (load.LoadDone? ==>
            && load.loaded.existing == existing && load.loaded.scraper == scraper
            && scraper in w.crawlers && load.loaded.crawler == w.crawlers[scraper])
      && (load.LoadStopped? ==> load.response.Failed?)
  {
  }

  /** What a call works with is what it read. */
  ghost predicate LoadedFrom(w: World, call: Call, l: Loaded) {
    && l.scraper in w.crawlers && l.crawler == w.crawlers[l.scraper]
    && match call.squidId
       case None => l.existing.None? && call.scraper == Some(l.scraper)
       case Some(id) => id in w.squids && l.existing == Some(w.squids[id]) && l.scraper == call.scraper.GetOr(w.squids[id].crawler)
  }

  lemma LoadIsQuiet(w: World, call: Call)
    ensures var (load, w') := LoadAll(w, call);
      && Unchanged(w, w')
      && (load.LoadDone? ==> LoadedFrom(w, call, load.loaded))
      && (load.LoadStopped? ==> load.response.Failed? || load.response.InvalidRequest?)
  {
    match call.squidId
    case None =>
      if call.scraper.Some? {
        LoadScraperIsQuiet(w, None, call.scraper.value);
      }
    case Some(id) =>
      var (o, w1) := ReadSquid(w, id);
      if o.Ok? {
        LoadScraperIsQuiet(w1, Some(w.squids[id]), call.scraper.GetOr(w.squids[id].crawler));
      }
  }

  lemma ChoiceIsQuiet(w: World, call: Call, l: Loaded)
    ensures Unchanged(w, ChooseAccounts(w, call, l).1)
  {
  }

  lemma QuoteIsQuiet(w: World, config: Config, call: Call, l: Loaded, accounts: Option<seq<string>>)
    ensures Unchanged(w, QuoteRun(w, config, call, l, accounts).1)
  {
  }

  /** Whether the request that lists the saved rows is answered; it follows those about the accounts. */
  predicate RowsListed(w: World, call: Call, l: Loaded) {
    Next(ChooseAccounts(w, call, l).1).Answered?
  }

  /** The plan a call goes ahead with, and what was read for it. */
  lemma PrepareIsQuiet(w: World, config: Config, call: Call, l: Loaded)
    ensures Unchanged(w, Prepare(w, config, call, l).1)
    ensures Prepare(w, config, call, l).0.Quoted? ==>
              var p := Prepare(w, config, call, l).0.plan;
              p == PlanFor(call, l, p.accounts, p.snapshot)
              && (call.squidId.Some? && call.squidId.value in w.squids ==>
                    var tasks := Listed(w.squids[call.squidId.value].tasks, w.listable);
                    p.snapshot == if RowsListed(w, call, l) then Rows(ReadableRows(tasks), |tasks|) else Unread)
  {
    ChoiceIsQuiet(w, call, l);
    var (choice, w1) := ChooseAccounts(w, call, l);
    if choice.Attach? {
      QuoteIsQuiet(w1, config, call, l, choice.accounts);
    }
  }

  // ---- what each group of writes may do to one squid ----

  /** Nothing but the squid `id` and the script has changed. */
  ghost predicate OnlySquid(w: World, w': World, id: nat) {
    && id in w.squids && id in w'.squids
    && w' == w.(squids := w.squids[id := w'.squids[id]], script := w'.script)
  }

  predicate Keeps(before: seq<SavedTask>, after: seq<SavedTask>) {
    forall t | t in before :: t in after
  }

  predicate KeepsReadable(before: seq<SavedTask>, after: seq<SavedTask>) {
    forall t | t in before && Readable(t) :: t in after
  }

  /** What a failed rewrite says about the rows that were there, and what became of them: once something was
      emptied it speaks of the rows that were listed. */
  ghost predicate Honest(f: Failure, snapshot: Snapshot, before: seq<SavedTask>, listable: Limit, after: seq<SavedTask>) {
    match f.tasksLost
    case None => Keeps(before, after)
    case Some(false) => if snapshot.Unread? then Keeps(before, after) else KeepsReadable(Listed(before, listable), after)
    case Some(true) => f.lostTasks == if snapshot.Unread? then None else Some(snapshot.rows)
  }

  lemma {:induction false} ReadableRowsHave(tasks: seq<SavedTask>, t: SavedTask)
    requires t in tasks && Readable(t)
    ensures t.params.value in ReadableRows(tasks)
  {
    var init, last := tasks[..|tasks| - 1], tasks[|tasks| - 1];
    if t != last {
      assert tasks == init + [last];
      ReadableRowsHave(init, t);
    }
  }

  predicate SnapshotOf(snapshot: Snapshot, tasks: seq<SavedTask>, listable: Limit) {
    var seen := Listed(tasks, listable);
    snapshot.Rows? ==> snapshot == Rows(ReadableRows(seen), |seen|)
  }

  lemma AddingKeeps(now: seq<SavedTask>, rows: seq<Row>)
    ensures Keeps(now, AddRows(now, rows))
  {
    forall t | t in now ensures t in AddRows(now, rows) {
      AddRowsKeeps(now, rows, t);
    }
  }

  lemma RestoredRows(before: seq<SavedTask>, now: seq<SavedTask>)
    ensures KeepsReadable(before, AddRows(now, ReadableRows(before)))
    ensures ReadableRows(before) == [] ==> KeepsReadable(before, now)
  {
    forall t | t in before && Readable(t) ensures t in AddRows(now, ReadableRows(before)) && ReadableRows(before) != [] {
      ReadableRowsHave(before, t);
      AddRowsKeeps(now, ReadableRows(before), t);
    }
  }

  /** Restoring reports honestly on rows that may be gone already, and touches nothing else. */
  lemma RestoreFacts(w: World, id: nat, snapshot: Snapshot, failure: Failure, before: seq<SavedTask>)
    requires id in w.squids && failure.tasksLost.None? && failure.lostTasks.None? && SnapshotOf(snapshot, before, w.listable)
    ensures var (f, w') := RestoreTasks(w, id, snapshot, failure);
      && OnlySquid(w, w', id) && f.tasksLost.Some? && Honest(f, snapshot, before, w.listable, w'.squids[id].tasks)
      && w'.squids[id] == w.squids[id].(tasks := w'.squids[id].tasks)
      && f.error == failure.error && f.squid == Some(id) && f.deleted == failure.deleted && f.taskCount == failure.taskCount
      && f.action == failure.action
      && (f.tasksLost == Some(false) ==> snapshot.Rows? && f.restored == Some(|snapshot.rows|))
  {
    RestoredRows(Listed(before, w.listable), w.squids[id].tasks);
  }

  /** A squid whose settings and accounts are the old ones or the ones sent. */
  ghost predicate PartlySaved(s: Squid, s': Squid, u: Update) {
    && s'.crawler == s.crawler && s'.shape == s.shape
    && (s'.name == s.name || s'.name == Saved(s, u).name)
    && (s'.params == s.params || s'.params == Saved(s, u).params)
    && (s'.accounts == s.accounts || s'.accounts == Saved(s, u).accounts)
  }

  /** How a rewrite reports once the settings are saved, whatever rows there were before. */
  ghost predicate RewriteOk(w: World, id: nat, row: Row, snapshot: Snapshot, before: seq<SavedTask>, f: Option<Failure>, w': World) {
    && OnlySquid(w, w', id)
    && w'.squids[id] == w.squids[id].(tasks := w'.squids[id].tasks)
    && match f
       case None => w'.squids[id].tasks == [SavedTask(Some(row))]
       case Some(f) =>
         && f.tasksLost.Some? && f.squid == Some(id) && f.deleted.None? && f.error.state.None?
         && Honest(f, snapshot, before, w.listable, w'.squids[id].tasks)
  }

  lemma AddOrRestoreFacts(w: World, id: nat, row: Row, snapshot: Snapshot, before: seq<SavedTask>)
    requires id in w.squids && w.squids[id].tasks == [] && SnapshotOf(snapshot, before, w.listable)
    ensures var (f, w') := AddOrRestore(w, id, row, snapshot); RewriteOk(w, id, row, snapshot, before, f, w')
  {
    AddOneToNone(row);
    var (o, w1) := AddTasks(w, id, [row]);
    if !o.Ok? {
      RestoreFacts(w1, id, snapshot, JustError(Briefly(o)), before);
    }
  }

  lemma EmptyAndAddFacts(w: World, id: nat, row: Row, snapshot: Snapshot)
    requires id in w.squids && SnapshotOf(snapshot, w.squids[id].tasks, w.listable)
    ensures var (f, w') := EmptyAndAdd(w, id, row, snapshot); RewriteOk(w, id, row, snapshot, w.squids[id].tasks, f, w')
  {
    var (o, w1) := EmptySquid(w, id);
    if o.Ok? {
      AddOrRestoreFacts(w1, id, row, snapshot, w.squids[id].tasks);
    } else {
      RestoreFacts(w1, id, snapshot, JustError(Briefly(o)), w.squids[id].tasks);
    }
  }

  lemma UpdateFacts(w: World, id: nat, u: Update)
    requires id in w.squids
    ensures var (o, w') := UpdateSquid(w, id, u);
      && OnlySquid(w, w', id)
      && (w'.squids[id] == w.squids[id] || w'.squids[id] == Saved(w.squids[id], u))
      && (o.Ok? ==> w'.squids[id] == Saved(w.squids[id], u))
  {
  }

  lemma OnlySquidTwice(w: World, w1: World, w2: World, id: nat)
    requires OnlySquid(w, w1, id) && OnlySquid(w1, w2, id)
    ensures OnlySquid(w, w2, id)
  {
  }

  /** How a whole rewrite, settings included, reports. */
  ghost predicate ReplaceOk(w: World, id: nat, u: Update, row: Row, snapshot: Snapshot, f: Option<Failure>, w': World) {
    && OnlySquid(w, w', id) && PartlySaved(w.squids[id], w'.squids[id], u)
    && match f
       case None => w'.squids[id] == Saved(w.squids[id], u).(tasks := [SavedTask(Some(row))])
       case Some(f) =>
         && f.tasksLost.Some? && f.squid == Some(id) && f.deleted.None? && f.error.state.None?
         && Honest(f, snapshot, w.squids[id].tasks, w.listable, w'.squids[id].tasks)
  }

  lemma ReplaceFacts(w: World, id: nat, u: Update, row: Row, snapshot: Snapshot)
    requires id in w.squids && SnapshotOf(snapshot, w.squids[id].tasks, w.listable)
    ensures var (f, w') := ReplaceInput(w, id, u, row, snapshot); ReplaceOk(w, id, u, row, snapshot, f, w')
  {
    var (o, w1) := UpdateSquid(w, id, u);
    UpdateFacts(w, id, u);
    if o.Ok? {
      EmptyAndAddFacts(w1, id, row, snapshot);
      OnlySquidTwice(w, w1, EmptyAndAdd(w1, id, row, snapshot).1, id);
    }
  }

  /** What a rewrite says of a request that failed: the rejection, or that the API could not be reached. */
  function Cause(fault: Fault): ErrorInfo {
    match fault
    case Rejected(status, kind) => ErrorInfo(CodeOf(status, kind), None, None)
    case _ => ErrorInfo(UpstreamUnavailable, None, None)
  }

  /** A failed rewrite names what stopped it: the first of its three requests that was not answered. */
  lemma ReplaceTellsCause(w: World, id: nat, u: Update, row: Row, snapshot: Snapshot)
    requires id in w.squids
    ensures var f := ReplaceInput(w, id, u, row, snapshot).0;
      var first, second, third := Next(w), Next(Tick(w)), Next(Tick(Tick(w)));
      && (f.None? <==> first.Answered? && second.Answered? && third.Answered?)
      && (f.Some? ==> f.value.error == Cause(if !first.Answered? then first else if !second.Answered? then second else third))
  {
  }

  /** So does a failed save, of its two requests. */
  lemma SaveTellsCause(w: World, id: nat, u: Update, row: Row)
    requires id in w.squids
    ensures var f := SaveInput(w, id, u, row).0;
      var first, second := Next(w), Next(Tick(w));
      && (f.None? <==> first.Answered? && (row == map[] || second.Answered?))
      && (f.Some? ==> f.value.error == Cause(if !first.Answered? then first else second))
  {
  }

  ghost predicate SaveOk(w: World, id: nat, u: Update, row: Row, f: Option<Failure>, w': World) {
    && OnlySquid(w, w', id) && PartlySaved(w.squids[id], w'.squids[id], u) && Keeps(w.squids[id].tasks, w'.squids[id].tasks)
    && match f
       case None => w'.squids[id] == Saved(w.squids[id], u).(tasks := if row == map[] then w.squids[id].tasks
                                                                      else AddRows(w.squids[id].tasks, [row]))
       case Some(f) => f.tasksLost == Some(false) && f.squid == Some(id) && f.deleted.None? && f.error.state.None?
  }

  lemma SaveFacts(w: World, id: nat, u: Update, row: Row)
    requires id in w.squids
    ensures var (f, w') := SaveInput(w, id, u, row); SaveOk(w, id, u, row, f, w')
  {
    UpdateFacts(w, id, u);
    AddingKeeps(w.squids[id].tasks, [row]);
  }

  // ---- committing on a reused squid ----

  predicate Planned(plan: Plan) {
    plan.update.name.Some? && plan.update.params.Some? && plan.update.accounts == plan.accounts
  }

  /** Whether the call asked for the saved rows to be replaced. */
  predicate Replacing(plan: Plan) {
    plan.hasInput && plan.replaceTasks
  }

  /** What the answer `c` says is exactly what the squid now holds. */
  ghost predicate AsAnswered(s: Squid, s': Squid, plan: Plan, c: Committed)
    requires c.Ready? && Planned(plan)
  {
    && s'.params == (if plan.hasInput then plan.update.params.value else s.params)
    && s'.accounts == plan.accounts.GetOr(s.accounts)
    && match c.action
       case CreatedRow => false
       case ReplacedRows => c.taskCount == Some(1) && Replacing(plan) && s'.tasks == [SavedTask(Some(plan.row))]
       case AddedRow => c.taskCount == Some(1) && plan.snapshot.Rows? && !plan.replaceTasks && plan.row != map[] && s.tasks == [] && s'.tasks == [SavedTask(Some(plan.row))]
       case UnchangedRows => c.taskCount == (if plan.snapshot.Rows? then Some(plan.snapshot.total) else None) && s'.tasks == s.tasks && (plan.hasInput ==> !plan.replaceTasks && plan.row == map[])
  }

  ghost predicate CommitOk(w: World, id: nat, plan: Plan, c: Committed, w': World)
    requires Planned(plan)
  {
    && OnlySquid(w, w', id)
    && PartlySaved(w.squids[id], w'.squids[id], plan.update)
    && (!Replacing(plan) ==> Keeps(w.squids[id].tasks, w'.squids[id].tasks))
    && match c
       case Ready(squid, _, _, _) => squid == id && AsAnswered(w.squids[id], w'.squids[id], plan, c)
       case CommitStopped(TasksUnreadable(_)) => w' == w
       case CommitStopped(SquidHasTasks(_, _)) => w' == w
       case CommitStopped(Failed(f)) =>
         && Honest(f, plan.snapshot, w.squids[id].tasks, w.listable, w'.squids[id].tasks)
         && f.deleted.None? && (f.tasksLost.Some? ==> f.error.state.None?)
       case CommitStopped(_) => false
  }

  lemma CommitRerun(w: World, id: nat, plan: Plan)
    requires id in w.squids && Planned(plan) && !plan.hasInput
    ensures var (c, w') := CommitReused(w, id, plan); CommitOk(w, id, plan, c, w')
  {
  }

  lemma CommitReplace(w: World, id: nat, plan: Plan)
    requires id in w.squids && Planned(plan) && Replacing(plan) && SnapshotOf(plan.snapshot, w.squids[id].tasks, w.listable)
    ensures var (c, w') := CommitReused(w, id, plan); CommitOk(w, id, plan, c, w')
  {
    ReplaceFacts(w, id, plan.update, plan.row, plan.snapshot);
  }

  lemma CommitSave(w: World, id: nat, plan: Plan)
    requires id in w.squids && Planned(plan) && plan.hasInput && !plan.replaceTasks
    requires SnapshotOf(plan.snapshot, w.squids[id].tasks, w.listable)
    ensures var (c, w') := CommitReused(w, id, plan); CommitOk(w, id, plan, c, w')
  {
    SaveFacts(w, id, plan.update, plan.row);
    AddOneToNone(plan.row);
  }

  /** Committing touches the one squid alone, never removes a row unless asked to, and either refuses
      without a change, or reports honestly, or leaves what it answers. */
  lemma CommitReusedFacts(w: World, id: nat, plan: Plan)
    requires id in w.squids && Planned(plan) && SnapshotOf(plan.snapshot, w.squids[id].tasks, w.listable)
    ensures var (c, w') := CommitReused(w, id, plan); CommitOk(w, id, plan, c, w')
  {
    if !plan.hasInput {
      CommitRerun(w, id, plan);
    } else if plan.replaceTasks {
      CommitReplace(w, id, plan);
    } else {
      CommitSave(w, id, plan);
    }
  }

  // ---- starting the run ----

  /** The run that appears, if one does, is the one answered, or the answer says the outcome is unknown. */
  ghost predicate RunTold(w: World, w': World, r: Response) {
    if w'.runs == w.runs then !r.Started?
    else
      && |w'.runs| == |w.runs| + 1 && w.runs == w'.runs[..|w.runs|]
      && var run := w'.runs[|w.runs|];
         run.id < w'.nextId
         && match r
            case Started(id, squid, _, _, _) => id == run.id && squid == run.squid
            case Failed(f) => f.error.state == Some(StateUnknown)
            case _ => false
  }

  /** The run that appears scrapes the rows the squid held when it started, under its settings then. */
  ghost predicate RunIs(w: World, w': World, squid: nat, tasks: seq<SavedTask>, params: Pricing.Settings) {
    w'.runs == w.runs ||
    (|w'.runs| == |w.runs| + 1 && w'.runs[|w.runs|].squid == squid && w'.runs[|w.runs|].tasks == tasks
     && w'.runs[|w.runs|].params == params)
  }

  /** Nothing but the squid `id`, the log of runs and the script has changed. */
  ghost predicate OnlySquidAndRuns(w: World, w': World, id: nat) {
    && id in w.squids && id in w'.squids && w.nextId <= w'.nextId
    && w' == w.(squids := w.squids[id := w'.squids[id]], runs := w'.runs, nextId := w'.nextId, script := w'.script)
  }

  lemma StartFacts(w: World, id: nat)
    requires id in w.squids
    ensures var (o, run, w') := StartRun(w, id);
      && w' == w.(runs := w'.runs, nextId := w'.nextId, script := w'.script)
      && (w'.runs == w.runs || w'.runs == w.runs + [Run(w.nextId, id, w.squids[id].tasks, w.squids[id].params)])
      && (w'.runs != w.runs ==> w'.nextId == w.nextId + 1 && (o.Ok? || o == NoAnswer(true)))
      && (o.Ok? ==> w'.runs != w.runs && run == w.nextId)
  {
  }

  /** How the launch ends, given the rows `before` the whole call began. */
  ghost predicate LaunchOk(w: World, plan: Plan, c: Committed, before: seq<SavedTask>, r: Response, w': World)
    requires c.Ready? && c.squid in w.squids
  {
    && OnlySquidAndRuns(w, w', c.squid) && RunTold(w, w', r)
    && RunIs(w, w', c.squid, w.squids[c.squid].tasks, w.squids[c.squid].params)
    && w'.squids[c.squid] == w.squids[c.squid].(tasks := w'.squids[c.squid].tasks)
    && match r
       case Started(_, squid, action, count, _) =>
         squid == c.squid && action == c.action && count == c.taskCount && w'.squids == w.squids
       case Failed(f) =>
         && f.squid == Some(c.squid) && f.deleted.None? && f.taskCount == c.taskCount && f.action == Some(c.action)
         && !Next(w).Answered? && f.error == Describe(Seen(Next(w)), true)
         && if c.action == ReplacedRows then f.tasksLost.Some? && Honest(f, plan.snapshot, before, w.listable, w'.squids[c.squid].tasks)
            else f.tasksLost.None? && w'.squids == w.squids
       case _ => false
  }

  lemma LaunchFacts(w: World, plan: Plan, c: Committed, before: seq<SavedTask>)
    requires c.Ready? && c.squid in w.squids && SnapshotOf(plan.snapshot, before, w.listable)
    ensures var (r, w') := Launch(w, plan, c); LaunchOk(w, plan, c, before, r, w')
  {
    var (o, run, w1) := StartRun(w, c.squid);
    StartFacts(w, c.squid);
    if !o.Ok? && c.action == ReplacedRows {
      var failed := JustError(Describe(o, true)).(squid := Some(c.squid), action := Some(c.action), taskCount := c.taskCount);
      RestoreFacts(w1, c.squid, plan.snapshot, failed, before);
    }
  }

  // ---- the writes of a call on a reused squid ----

  /** What the caller is told of the rows, against what became of them; `listed` says whether the rows had
      been listed before, up to the limit.  Lost rows are handed back then, every readable one that was
      listed, and only then. */
  ghost predicate RowsTold(r: Response, listed: bool, before: seq<SavedTask>, listable: Limit, after: seq<SavedTask>) {
    match r
    case Failed(f) =>
      (match f.tasksLost
       case None => Keeps(before, after)
       case Some(false) => if listed then KeepsReadable(Listed(before, listable), after) else Keeps(before, after)
       case Some(true) => f.lostTasks == if listed then Some(ReadableRows(Listed(before, listable))) else None)
    case Started(_, _, action, _, _) => action != ReplacedRows ==> Keeps(before, after)
    case _ => Keeps(before, after)
  }

  /** The number of rows the caller is told the run scrapes. */
  function CountTold(r: Response): Option<nat> {
    match r
    case Started(_, _, _, count, _) => count
    case Failed(f) => f.taskCount
    case _ => None
  }

  /** The rows a started run scrapes: the saved ones as they were, or the new one alone. */
  ghost predicate RunRows(plan: Plan, before: seq<SavedTask>, scraped: seq<SavedTask>) {
    if Replacing(plan) then scraped == [SavedTask(Some(plan.row))]
    else scraped == before || (before == [] && plan.row != map[] && scraped == [SavedTask(Some(plan.row))])
  }

  ghost predicate NewRun(w: World, w': World) {
    |w'.runs| == |w.runs| + 1
  }

  ghost predicate ReuseOk(w: World, id: nat, plan: Plan, r: Response, w': World)
    requires Planned(plan)
  {
    && OnlySquidAndRuns(w, w', id) && RunTold(w, w', r)
    && PartlySaved(w.squids[id], w'.squids[id], plan.update)
    && RowsTold(r, plan.snapshot.Rows?, w.squids[id].tasks, w.listable, w'.squids[id].tasks)
    && (!Replacing(plan) ==> Keeps(w.squids[id].tasks, w'.squids[id].tasks))
    && (NewRun(w, w') ==>
          var run := w'.runs[|w.runs|];
          && run.squid == id && RunRows(plan, w.squids[id].tasks, run.tasks)
          && run.params == (if plan.hasInput then plan.update.params.value else w.squids[id].params) == w'.squids[id].params
          && CountTold(r) == (if plan.snapshot.Rows? || Replacing(plan) then Some(|Listed(run.tasks, w.listable)|) else None))
    && (!r.Failed? && !r.Started? ==> w' == w)
  }

  lemma ReuseFacts(w: World, id: nat, plan: Plan)
    requires id in w.squids && Planned(plan) && plan.squid == Some(id) && SnapshotOf(plan.snapshot, w.squids[id].tasks, w.listable)
    ensures var (r, w') := WriteAndStart(w, plan); ReuseOk(w, id, plan, r, w')
  {
    hide CommitReused;
    var before := w.squids[id].tasks;
    var (c, w1) := Commit(w, plan);
    CommitReusedFacts(w, id, plan);
    if c.Ready? {
      LaunchFacts(w1, plan, c, before);
    }
  }

  // ---- the writes of a call that creates its squid ----

  /** Apart from the squid `n`, which did not exist before, nothing but the log of runs has changed. */
  ghost predicate OnlyNewSquid(w: World, w': World, n: nat) {
    && n !in w.squids && w'.squids - {n} == w.squids
    && w.nextId <= w'.nextId && (n in w'.squids ==> n < w'.nextId)
    && w' == w.(squids := w'.squids, runs := w'.runs, nextId := w'.nextId, script := w'.script)
  }

  /** A squid that exists now is named in the answer, unless the answer to its creation was lost; one that
      is said to be deleted is gone. */
  ghost predicate Named(r: Response, w': World, n: nat) {
    && (n in w'.squids ==>
          match r
          case Started(_, squid, _, _, _) => squid == n
          case Failed(f) => f.squid == Some(n) || (f.squid.None? && f.error.state == Some(StateUnknown))
          case _ => false)
    && (r.Failed? && r.failure.deleted == Some(true) ==> n !in w'.squids)
  }

  /** A new squid is called as the API called it, or else, once its settings are saved, as planned. */
  ghost predicate NewName(w: World, plan: Plan, name: string) {
    name == w.autoName || (w.autoName == "" && Some(name) == plan.update.name)
  }

  ghost predicate NewOk(w: World, plan: Plan, r: Response, w': World)
    requires Planned(plan)
  {
    && OnlyNewSquid(w, w', w.nextId) && Named(r, w', w.nextId) && RunTold(w, w', r)
    && (w.nextId in w'.squids ==> NewName(w, plan, w'.squids[w.nextId].name))
    && (NewRun(w, w') ==>
          var run := w'.runs[|w.runs|];
          && run.squid == w.nextId && run.tasks == [SavedTask(Some(plan.row))] && run.params == plan.update.params.value
          && CountTold(r) == Some(1))
    && (r.Failed? || r.Started?)
    && (r.Failed? ==> r.failure.tasksLost.None?)
  }

  lemma FillNewFacts(w: World, id: nat, plan: Plan)
    requires id in w.squids && w.squids[id].tasks == [] && Planned(plan)
    ensures var (o, w') := FillNew(w, id, plan);
      && OnlySquid(w, w', id)
      && (w'.squids[id].name == w.squids[id].name || Some(w'.squids[id].name) == plan.update.name)
      && (o.Ok? ==> w'.squids[id].tasks == [SavedTask(Some(plan.row))] && w'.squids[id].params == plan.update.params.value)
  {
    AddOneToNone(plan.row);
    UpdateFacts(w, id, plan.update);
    var (o, w1) := UpdateSquid(w, id, plan.update);
  }

  /** A squid on which a write was rejected is deleted, or named as still there. */
  lemma NewSquidFailedFacts(w: World, id: nat, o: Outcome)
    requires o.ApiError? && id in w.squids
    ensures var (f, w') := NewSquidFailed(w, id, o);
      && w' == w.(squids := w'.squids, script := w'.script) && (w'.squids == w.squids || w'.squids == w.squids - {id})
      && f.tasksLost.None? && f.squid == Some(id) && (f.deleted == Some(true) ==> id !in w'.squids)
  {
  }

  lemma CreateFacts(w: World, crawler: string, name: Option<string>)
    requires Valid(w)
    ensures var (o, id, w') := CreateSquid(w, crawler, name);
      && id == w.nextId && OnlyNewSquid(w, w', id) && w'.runs == w.runs
      && (o.Ok? ==> id in w'.squids && w'.squids[id].tasks == [] && w'.nextId == w.nextId + 1)
      && (id in w'.squids ==> (o.Ok? || o == NoAnswer(true)) && w'.squids[id].name == GivenName(w, name))
  {
    var (o, id, w') := CreateSquid(w, crawler, name);
    assert w'.squids - {id} == w.squids;
  }

  lemma StillOnlyNew(w: World, w1: World, w2: World, n: nat)
    requires OnlyNewSquid(w, w1, n) && n in w1.squids
    requires OnlySquid(w1, w2, n) || (w2 == w1.(squids := w2.squids, script := w2.script) && w2.squids == w1.squids - {n})
    ensures OnlyNewSquid(w, w2, n)
  {
    assert w2.squids - {n} == w1.squids - {n};
  }

  /** The created squid after its settings and its row were written, or as far as that went. */
  ghost predicate CommitNewOk(w: World, plan: Plan, c: Committed, w': World)
    requires Planned(plan)
  {
    && OnlyNewSquid(w, w', w.nextId) && w'.runs == w.runs
    && (w.nextId in w'.squids ==> NewName(w, plan, w'.squids[w.nextId].name))
    && match c
       case Ready(squid, action, _, _) =>
         && squid == w.nextId && action == CreatedRow && c.taskCount == Some(1) && squid in w'.squids && w'.nextId == w.nextId + 1
         && w'.squids[squid].tasks == [SavedTask(Some(plan.row))] && w'.squids[squid].params == plan.update.params.value
       case CommitStopped(r) => r.Failed? && r.failure.tasksLost.None? && Named(r, w', w.nextId)
  }

  lemma CommitNewFacts(w: World, plan: Plan)
    requires Valid(w) && Planned(plan) && plan.squid.None?
    ensures var (c, w') := CommitNew(w, plan); CommitNewOk(w, plan, c, w')
  {
    var (o, id, w1) := CreateSquid(w, plan.crawlerId, None);
    CreateFacts(w, plan.crawlerId, None);
    if o.Ok? {
      var named := NamedAs(plan, GivenName(w, None));
      var (o2, w2) := FillNew(w1, id, named);
      FillNewFacts(w1, id, named);
      StillOnlyNew(w, w1, w2, id);
      if o2.ApiError? {
        NewSquidFailedFacts(w2, id, o2);
        var (f, w3) := NewSquidFailed(w2, id, o2);
        if w3.squids == w2.squids {
          assert OnlySquid(w2, w3, id);
        }
        StillOnlyNew(w, w2, w3, id);
      }
    }
  }

  lemma FillNewOutcome(w: World, id: nat, plan: Plan)
    requires id in w.squids
    ensures var (o, w') := FillNew(w, id, plan);
      && id in w'.squids
      && if Next(w).Answered? then o == Seen(Next(Tick(w))) && w'.script == Tick(Tick(w)).script
         else o == Seen(Next(w)) && w'.script == Tick(w).script
  {
  }

  /** A write on a squid just created that is rejected deletes it, and the answer says whether that worked; one
      whose answer was lost leaves it. */
  lemma RejectedIsDeleted(w: World, plan: Plan)
    requires Valid(w) && Planned(plan) && plan.squid.None? && Next(w).Answered?
    ensures var (c, w') := CommitNew(w, plan);
      var first, second, third := Next(Tick(w)), Next(Tick(Tick(w))), Next(Tick(Tick(Tick(w))));
      var (failed, next) := if first.Answered? then (second, third) else (first, second);
      !failed.Answered? ==>
        && c.CommitStopped? && c.response.Failed? && c.response.failure.squid == Some(w.nextId)
        && c.response.failure.error == Describe(Seen(failed), true)
        && c.response.failure.deleted == (if failed.Rejected? then Some(next.Answered?) else None)
        && (w.nextId in w'.squids <==> !(failed.Rejected? && Applied(next)))
  {
    var (o, id, w1) := CreateSquid(w, plan.crawlerId, None);
    hide FillNew;
    FillNewOutcome(w1, id, NamedAs(plan, GivenName(w, None)));
  }

  lemma NewFacts(w: World, plan: Plan)
    requires Valid(w) && Planned(plan) && plan.squid.None? && plan.snapshot.Unread?
    ensures var (r, w') := WriteAndStart(w, plan); NewOk(w, plan, r, w')
  {
    var (c, w1) := Commit(w, plan);
    CommitNewFacts(w, plan);
    if c.Ready? {
      LaunchFacts(w1, plan, c, []);
      var (r, w2) := Launch(w1, plan, c);
      assert w2.squids == w1.squids;
    }
  }

  // ---- whole calls ----

  /** The answers that refuse a call. */
  predicate IsRefusal(r: Response) {
    !r.Failed? && !r.Started?
  }

  /** The name saved with the settings: the squid's own, if it has one, else its crawler's, else the latter's id. */
  function PlannedName(l: Loaded): string {
    if l.existing.Some? && l.existing.value.name != "" then l.existing.value.name
    else if l.crawler.name != "" then l.crawler.name
    else l.scraper
  }

  lemma PlanIsSound(w: World, config: Config, call: Call, l: Loaded)
    requires LoadedFrom(w, call, l) && Prepare(w, config, call, l).0.Quoted?
    ensures var p := Prepare(w, config, call, l).0.plan;
      && Planned(p) && p.squid == call.squidId && p.replaceTasks == call.replaceTasks
      && p.hasInput == (InputSent(call, l) != []) && p.row == Routing.TaskParams(l.schema, InputSent(call, l))
      && p.update.params == Some(EffectiveSettings(call, l)) && p.update.name == Some(PlannedName(l))
      && (call.squidId.None? ==> p.snapshot.Unread?)
      && (call.squidId.Some? ==>
            SnapshotOf(p.snapshot, w.squids[call.squidId.value].tasks, w.listable) && (p.snapshot.Rows? <==> RowsListed(w, call, l)))
  {
    PrepareIsQuiet(w, config, call, l);
    if call.squidId.None? {
      MergeIntoNothing(Routing.SquidParamsOf(l.schema, InputSent(call, l)));
    }
  }

  lemma MergeIntoNothing(s: Pricing.Settings)
    ensures SquidSettings.Merge(map[], s) == s
  {
    assert map[] + s == s;
  }

  /** How a call that reaches the reads and writes ends, whatever the script. */
  lemma RunNowFacts(w: World, config: Config, call: Call, l: Loaded)
    requires Valid(w) && LoadedFrom(w, call, l)
    ensures var (r, w') := RunNow(w, config, call, l);
      match Prepare(w, config, call, l).0
      case QuoteStopped(q) => r == q && !r.Started? && Unchanged(w, w') && (r.Failed? ==> r.failure.tasksLost.None? && r.failure.deleted.None? && r.failure.squid.None?)
      case Quoted(plan) =>
        && Planned(plan)
        && var w1 := Prepare(w, config, call, l).1;
           && Unchanged(w, w1)
           && match call.squidId
              case Some(id) => ReuseOk(w1, id, plan, r, w')
              case None => NewOk(w1, plan, r, w')
  {
    PrepareIsQuiet(w, config, call, l);
    var (q, w1) := Prepare(w, config, call, l);
    if q.QuoteStopped? {
      StopsQuietly(w, config, call, l);
    } else {
      PlanIsSound(w, config, call, l);
      if call.squidId.Some? {
        ReuseFacts(w1, call.squidId.value, q.plan);
      } else {
        NewFacts(w1, q.plan);
      }
    }
  }

  lemma StopsQuietly(w: World, config: Config, call: Call, l: Loaded)
    requires Prepare(w, config, call, l).0.QuoteStopped?
    ensures var r := Prepare(w, config, call, l).0.response;
      !r.Started? && (r.Failed? ==> r.failure.tasksLost.None? && r.failure.deleted.None? && r.failure.squid.None?)
  {
  }
}
