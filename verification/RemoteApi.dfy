/** The upstream API: squids with their rows, settings and accounts, the runs started on them, and the
    script of what will become of the requests to come. */
module RemoteApi {
  import opened Wrappers
  import Dicts
  import opened Errors
  import opened Accounts
  import opened Pricing
  import opened SchemaTranslator

  type Row = map<string, Dicts.Json>

  /** A saved task; its params are missing when the API shows them in a shape the client cannot read. */
  datatype SavedTask = SavedTask(params: Option<Row>)

  /** The client keeps the params of a task only when they are a non-empty dictionary. */
  predicate Readable(t: SavedTask) {
    t.params.Some? && t.params.value != map[]
  }

  datatype Squid = Squid(crawler: string, name: string, tasks: seq<SavedTask>, params: Settings,
                         accounts: seq<string>, shape: AccountsShape)

  datatype Crawler = Crawler(name: string, items: seq<Item>, prices: PriceList, accountType: Option<string>)

  datatype Run = Run(id: nat, squid: nat, tasks: seq<SavedTask>, params: Settings)

  /** How many rows a listing returns at most: the client walks a limited number of pages. */
  type Limit = n: nat | n > 0 witness 1

  datatype World = World(squids: map<nat, Squid>, runs: seq<Run>, nextId: nat,
                         crawlers: map<string, Crawler>, crawlerParams: map<string, Params>,
                         accounts: seq<Account>, listable: Limit, autoName: string, script: seq<Fault>)

  /** Identifiers are never handed out twice. */
  predicate Valid(w: World) {
    && (forall id | id in w.squids :: id < w.nextId)
    && (forall i | 0 <= i < |w.runs| :: w.runs[i].id < w.nextId)
  }

  /** What the environment does with the next request; an exhausted script answers everything. */
  function Next(w: World): Fault {
    if w.script == [] then Answered else w.script[0]
  }

  function Tick(w: World): World {
    w.(script := if w.script == [] then [] else w.script[1..])
  }

  const MISSING := ApiError(404, HTTPNotFound)

  /** Two worlds that differ in nothing but how much of the script is used up. */
  predicate Unchanged(w: World, w': World) {
    w' == w.(script := w'.script)
  }

  // ---- reads ----

  function ReadSquid(w: World, id: nat): (Outcome, World) {
    (if Next(w).Answered? && id !in w.squids then MISSING else Seen(Next(w)), Tick(w))
  }

  function ReadCrawler(w: World, id: string): (Outcome, World) {
    (if Next(w).Answered? && id !in w.crawlers then MISSING else Seen(Next(w)), Tick(w))
  }

  function ReadParams(w: World, id: string): (Option<Params>, World) {
    (if Next(w).Answered? && id in w.crawlerParams then Some(w.crawlerParams[id]) else None, Tick(w))
  }

  /** The rows a listing shows: all of them, if they fit on the pages the client walks. */
  function Listed(tasks: seq<SavedTask>, listable: Limit): seq<SavedTask> {
    if |tasks| <= listable then tasks else tasks[..listable]
  }

  function ReadTasks(w: World, id: nat): (Option<seq<SavedTask>>, World) {
    (if Next(w).Answered? && id in w.squids then Some(Listed(w.squids[id].tasks, w.listable)) else None, Tick(w))
  }

  /** A read whose content plays no part here: the balance, the connected accounts. */
  function ReadOther(w: World): (Outcome, World) {
    (Seen(Next(w)), Tick(w))
  }

  // ---- writes ----

  /** A request about a squid that does not exist. */
  function OnMissing(w: World): (Outcome, World) {
    (if Next(w).Answered? then MISSING else Seen(Next(w)), Tick(w))
  }

  /** One write that leaves a squid as `after`, if the script lets it through. */
  function Write(w: World, id: nat, after: Squid): (Outcome, World) {
    (Seen(Next(w)), if Applied(Next(w)) then Tick(w).(squids := w.squids[id := after]) else Tick(w))
  }

  datatype Update = Update(name: Option<string>, params: Option<Settings>, accounts: Option<seq<string>>)

  /** The save takes effect only when a recognised field rides along; params and accounts are replaced
      wholesale. */
  function Saved(s: Squid, u: Update): Squid {
    s.(name := u.name.GetOr(s.name),
       params := if u.params.Some? && u.name.Some? then u.params.value else s.params,
       accounts := u.accounts.GetOr(s.accounts))
  }

  function UpdateSquid(w: World, id: nat, u: Update): (Outcome, World) {
    if id !in w.squids then OnMissing(w) else Write(w, id, Saved(w.squids[id], u))
  }

  function EmptySquid(w: World, id: nat): (Outcome, World) {
    if id !in w.squids then OnMissing(w) else Write(w, id, w.squids[id].(tasks := []))
  }

  /** Adding deduplicates against the rows that are there. */
  function AddRows(tasks: seq<SavedTask>, rows: seq<Row>): seq<SavedTask> {
    if rows == [] then tasks
    else
      var before, t := AddRows(tasks, rows[..|rows| - 1]), SavedTask(Some(rows[|rows| - 1]));
      if t in before then before else before + [t]
  }

  function AddTasks(w: World, id: nat, rows: seq<Row>): (Outcome, World) {
    if id !in w.squids then OnMissing(w)
    else Write(w, id, w.squids[id].(tasks := AddRows(w.squids[id].tasks, rows)))
  }

  function DeleteSquid(w: World, id: nat): (Outcome, World) {
    if id !in w.squids then OnMissing(w)
    else (Seen(Next(w)), if Applied(Next(w)) then Tick(w).(squids := w.squids - {id}) else Tick(w))
  }

  /** The name a squid is created with: the one given, or what the API itself calls it, if anything. */
  function GivenName(w: World, name: Option<string>): string {
    if name.Some? && name.value != "" then name.value else w.autoName
  }

  /** The id of a created squid is known to the client only with an answer. */
  function CreateSquid(w: World, crawler: string, name: Option<string>): (Outcome, nat, World) {
    var s := Squid.Squid(crawler, GivenName(w, name), [], map[], [], NullShape);
    (Seen(Next(w)), w.nextId,
     if Applied(Next(w)) then Tick(w).(squids := w.squids[w.nextId := s], nextId := w.nextId + 1) else Tick(w))
  }

  /** A run scrapes every row its squid holds when it starts, under the settings it has then. */
  function StartRun(w: World, id: nat): (Outcome, nat, World) {
    if id !in w.squids then (OnMissing(w).0, w.nextId, Tick(w))
    else (Seen(Next(w)), w.nextId,
          if Applied(Next(w)) then Tick(w).(runs := w.runs + [Run(w.nextId, id, w.squids[id].tasks, w.squids[id].params)],
                                      nextId := w.nextId + 1)
          else Tick(w))
  }

  // ---- facts about rows ----

  lemma {:induction false} AddRowsKeeps(tasks: seq<SavedTask>, rows: seq<Row>, t: SavedTask)
    requires t in tasks || (t.params.Some? && t.params.value in rows)
    ensures t in AddRows(tasks, rows)
  {
    if rows != [] && t !in tasks {
      assert rows == rows[..|rows| - 1] + [rows[|rows| - 1]];
      if t.params.value in rows[..|rows| - 1] {
        AddRowsKeeps(tasks, rows[..|rows| - 1], t);
      }
    } else if rows != [] {
      AddRowsKeeps(tasks, rows[..|rows| - 1], t);
    }
  }

  lemma {:induction false} AddRowsOnly(tasks: seq<SavedTask>, rows: seq<Row>, t: SavedTask)
    requires t in AddRows(tasks, rows)
    ensures t in tasks || (t.params.Some? && t.params.value in rows)
  {
    if rows != [] && t in AddRows(tasks, rows[..|rows| - 1]) {
      AddRowsOnly(tasks, rows[..|rows| - 1], t);
    }
  }

  lemma AddOneToNone(row: Row)
    ensures AddRows([], [row]) == [SavedTask(Some(row))]
  {
    assert [row][..0] == [];
  }

  // ---- the API as an object ----

  class Api {
    var world: World

    constructor (world: World)
      ensures this.world == world
    {
      this.world := world;
    }

    method GetSquid(id: nat) returns (o: Outcome, squid: Option<Squid>)
      modifies this
      ensures (o, world) == ReadSquid(old(world), id)
      ensures o.Ok? ==> id in world.squids && squid == Some(world.squids[id])
    {
      o := if Next(world).Answered? && id !in world.squids then MISSING else Seen(Next(world));
      squid := if id in world.squids then Some(world.squids[id]) else None;
      world := Tick(world);
    }

    method GetCrawler(id: string) returns (o: Outcome, crawler: Option<Crawler>)
      modifies this
      ensures (o, world) == ReadCrawler(old(world), id)
      ensures o.Ok? ==> id in world.crawlers && crawler == Some(world.crawlers[id])
    {
      o := if Next(world).Answered? && id !in world.crawlers then MISSING else Seen(Next(world));
      crawler := if id in world.crawlers then Some(world.crawlers[id]) else None;
      world := Tick(world);
    }

    method GetCrawlerParams(id: string) returns (params: Option<Params>)
      modifies this
      ensures (params, world) == ReadParams(old(world), id)
    {
      params := if Next(world).Answered? && id in world.crawlerParams then Some(world.crawlerParams[id]) else None;
      world := Tick(world);
    }

    method ListTasks(id: nat) returns (tasks: Option<seq<SavedTask>>)
      modifies this
      ensures (tasks, world) == ReadTasks(old(world), id)
    {
      tasks := if Next(world).Answered? && id in world.squids then Some(Listed(world.squids[id].tasks, world.listable)) else None;
      world := Tick(world);
    }

    method ListAccounts() returns (o: Outcome, accounts: seq<Account>)
      modifies this
      ensures (o, world) == ReadOther(old(world)) && accounts == world.accounts
    {
      o, accounts := Seen(Next(world)), world.accounts;
      world := Tick(world);
    }

    method GetBalance() returns (o: Outcome)
      modifies this
      ensures (o, world) == ReadOther(old(world))
    {
      o := Seen(Next(world));
      world := Tick(world);
    }

    method Update(id: nat, u: Update) returns (o: Outcome)
      modifies this
      ensures (o, world) == UpdateSquid(old(world), id, u)
    {
      var r := UpdateSquid(world, id, u);
      o, world := r.0, r.1;
    }

    method Empty(id: nat) returns (o: Outcome)
      modifies this
      ensures (o, world) == EmptySquid(old(world), id)
    {
      var r := EmptySquid(world, id);
      o, world := r.0, r.1;
    }

    method Add(id: nat, rows: seq<Row>) returns (o: Outcome)
      modifies this
      ensures (o, world) == AddTasks(old(world), id, rows)
    {
      var r := AddTasks(world, id, rows);
      o, world := r.0, r.1;
    }

    method Delete(id: nat) returns (o: Outcome)
      modifies this
      ensures (o, world) == DeleteSquid(old(world), id)
    {
      var r := DeleteSquid(world, id);
      o, world := r.0, r.1;
    }

    method Create(crawler: string, name: Option<string>) returns (o: Outcome, id: nat, given: string)
      modifies this
      ensures (o, id, world) == CreateSquid(old(world), crawler, name) && given == GivenName(old(world), name)
    {
      var r := CreateSquid(world, crawler, name);
      given := GivenName(world, name);
      o, id, world := r.0, r.1, r.2;
    }

    method Start(id: nat) returns (o: Outcome, run: nat)
      modifies this
      ensures (o, run, world) == StartRun(old(world), id)
    {
      var r := StartRun(world, id);
      o, run, world := r.0, r.1, r.2;
    }
  }
}
