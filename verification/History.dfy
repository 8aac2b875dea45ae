/** Sequences of calls of the tools that write, in any order and on any squids, and what survives them. */
module History {
  import opened Wrappers
  import opened Accounts
  import opened Pricing
  import opened SquidSettings
  import opened Idempotency
  import SchemaTranslator
  import opened RemoteApi
  import opened RunFlow
  import opened RunScraperSafety
  import opened RunScraperTheorems
  import opened Primitives
  import FaultFree

  datatype ToolCall =
    | RunCall(call: Call)
    | AttachCall(squid: nat, account: Option<string>)
    | UpdateCall(squid: nat, name: Option<string>, cfg: Settled)
    | CreateCall(crawler: string, name: Option<string>, cfg: Settled)

  datatype Answer =
    | RunAnswer(response: Response)
    | AttachAnswer(attach: Primitives.AttachAnswer)
    | UpdateAnswer(update: Primitives.UpdateAnswer)
    | CreateAnswer(create: Primitives.CreateAnswer)

  datatype State = State(world: World, memory: Memory)

  function Step(s: State, config: Config, c: ToolCall): (Answer, State) {
    match c
    case RunCall(call) =>
      var (r, w, m) := RunScraper(s.world, s.memory, config, call);
      (RunAnswer(r), State(w, m))
    case AttachCall(id, account) =>
      var (a, w) := AttachAccount(s.world, id, account);
      (AttachAnswer(a), State(w, s.memory))
    case UpdateCall(id, name, cfg) =>
      var (a, w) := UpdateScraper(s.world, id, name, cfg);
      (UpdateAnswer(a), State(w, s.memory))
    case CreateCall(crawler, name, cfg) =>
      var (a, w) := CreateSquidTool(s.world, crawler, name, cfg);
      (CreateAnswer(a), State(w, s.memory))
  }

  /** The state before the call `i`. */
  function StateAt(s: State, config: Config, calls: seq<ToolCall>, i: nat): State
    requires i <= |calls|
  {
    if i == 0 then s else Step(StateAt(s, config, calls, i - 1), config, calls[i - 1]).1
  }

  function AnswerAt(s: State, config: Config, calls: seq<ToolCall>, i: nat): Answer
    requires i < |calls|
  {
    Step(StateAt(s, config, calls, i), config, calls[i]).0
  }

  // ---- one call ----

  /** The squid a call works on. */
  function Target(c: ToolCall): Option<nat> {
    match c
    case RunCall(call) => call.squidId
    case AttachCall(id, _) => Some(id)
    case UpdateCall(id, _, _) => Some(id)
    case CreateCall(_, _, _) => None
  }

  /** What no call changes: the catalogue, the connected accounts, and that identifiers are used once. */
  ghost predicate Background(w: World, w': World) {
    w'.crawlers == w.crawlers && w'.accounts == w.accounts && w'.crawlerParams == w.crawlerParams && Valid(w')
  }

  lemma ReusedBackground(w: World, w': World, id: nat, r: Response)
    requires Valid(w) && OnlySquidAndRuns(w, w', id) && RunTold(w, w', r)
    ensures Background(w, w')
  {
  }

  lemma NewBackground(w: World, w': World, r: Response)
    requires Valid(w) && OnlyNewSquid(w, w', w.nextId) && RunTold(w, w', r)
    ensures Background(w, w')
  {
    forall id | id in w'.squids ensures id < w'.nextId {
      if id != w.nextId {
        assert id in w'.squids - {w.nextId};
      }
    }
  }

  lemma OthersUntouched(w: World, w': World, n: nat, id: nat)
    requires OnlyNewSquid(w, w', n) && id in w.squids
    ensures SquidKept(w, w', id, None)
  {
    assert id in w'.squids - {n};
  }

  lemma RunBackground(w: World, memory: Memory, config: Config, call: Call)
    requires Valid(w)
    ensures Background(w, RunScraper(w, memory, config, call).1)
  {
    AtMostOneRun(w, memory, config, call);
    var (r, w', m') := RunScraper(w, memory, config, call);
    if call.squidId.None? {
      RunOnNew(w, memory, config, call);
      NewBackground(w, w', r);
    } else if call.squidId.value in w.squids {
      NoSilentLoss(w, memory, config, call, call.squidId.value);
      ReusedBackground(w, w', call.squidId.value, r);
    } else {
      RunOnMissing(w, memory, config, call);
    }
  }

  lemma RunOnMissing(w: World, memory: Memory, config: Config, call: Call)
    requires Valid(w) && call.squidId.Some? && call.squidId.value !in w.squids
    ensures Unchanged(w, RunScraper(w, memory, config, call).1)
  {
    var l := CallFacts(w, memory, config, call);
    if l.Some? {
      assert false;
    }
  }

  lemma NothingNew(w: World, w': World)
    requires Valid(w) && Unchanged(w, w')
    ensures OnlyNewSquid(w, w', w.nextId)
  {
    assert w.nextId !in w.squids && w.squids - {w.nextId} == w.squids;
  }

  lemma NewSinceRead(w: World, w1: World, w': World)
    requires Unchanged(w, w1) && OnlyNewSquid(w1, w', w1.nextId)
    ensures OnlyNewSquid(w, w', w.nextId)
  {
  }

  lemma RunOnNew(w: World, memory: Memory, config: Config, call: Call)
    requires Valid(w) && call.squidId.None?
    ensures OnlyNewSquid(w, RunScraper(w, memory, config, call).1, w.nextId)
  {
    var l := CallFacts(w, memory, config, call);
    hide RunScraper, LoadAll, Prepare, LoadedFrom, OnlyNewSquid;
    var w' := RunScraper(w, memory, config, call).1;
    if l.Some? {
      var w1 := LoadAll(w, call).1;
      RunNowFacts(w1, config, call, l.value);
      hide RunNow;
      NewSinceRead(w, Prepare(w1, config, call, l.value).1, w');
    } else {
      NothingNew(w, w');
    }
  }

  /** A squid other than the target stays as it is; the target keeps its crawler. */
  ghost predicate SquidKept(w: World, w': World, id: nat, target: Option<nat>) {
    && id in w.squids && id in w'.squids
    && (target != Some(id) ==> w'.squids[id] == w.squids[id])
    && w'.squids[id].crawler == w.squids[id].crawler && w'.squids[id].shape == w.squids[id].shape
  }

  lemma RunOnSavedKeeps(w: World, memory: Memory, config: Config, call: Call, target: nat, id: nat)
    requires Valid(w) && id in w.squids && call.squidId == Some(target)
    ensures SquidKept(w, RunScraper(w, memory, config, call).1, id, call.squidId)
  {
    hide RunScraper, RunNow, Prepare, InputErrors, KeyOf, LoadAll, LoadedFrom;
    var l := CallFacts(w, memory, config, call);
    if l.Some? {
      var w1 := LoadAll(w, call).1;
      RunNowFacts(w1, config, call, l.value);
    }
  }

  lemma RunKeepsSquid(w: World, memory: Memory, config: Config, call: Call, id: nat)
    requires Valid(w) && id in w.squids
    ensures SquidKept(w, RunScraper(w, memory, config, call).1, id, call.squidId)
  {
    hide RunScraper;
    if call.squidId.None? {
      RunOnNew(w, memory, config, call);
      OthersUntouched(w, RunScraper(w, memory, config, call).1, w.nextId, id);
    } else {
      RunOnSavedKeeps(w, memory, config, call, call.squidId.value, id);
    }
  }

  lemma AttachKeeps(w: World, id: nat, account: Option<string>, other: nat)
    requires Valid(w) && other in w.squids
    ensures var w' := AttachAccount(w, id, account).1; Background(w, w') && SquidKept(w, w', other, Some(id))
  {
    if id in w.squids {
      AttachOnlyGrows(w, id, account);
    }
  }

  lemma UpdateKeeps(w: World, id: nat, name: Option<string>, cfg: Settled, other: nat)
    requires Valid(w) && other in w.squids
    ensures var w' := UpdateScraper(w, id, name, cfg).1; Background(w, w') && SquidKept(w, w', other, Some(id))
  {
    SquidReadIsQuiet(w, id);
    if name.Some? || !Empty(cfg) {
      var (wireNames, found, w1) := SquidAndWireNames(w, id);
      if id in w1.squids {
        UpdateFacts(w1, id, UpdateBody(id, name, cfg, wireNames, found));
      }
    }
  }

  lemma CreateKeeps(w: World, crawler: string, name: Option<string>, cfg: Settled, other: nat)
    requires Valid(w) && other in w.squids
    ensures var w' := CreateSquidTool(w, crawler, name, cfg).1; Background(w, w') && SquidKept(w, w', other, None)
  {
    CreateNamesItsSquid(w, crawler, name, cfg);
    var (a, w') := CreateSquidTool(w, crawler, name, cfg);
    NewBackground(w, w', InvalidRequest);
    OthersUntouched(w, w', w.nextId, other);
  }

  lemma StepKeeps(s: State, config: Config, c: ToolCall, id: nat)
    requires Valid(s.world) && id in s.world.squids
    ensures var s' := Step(s, config, c).1; Background(s.world, s'.world) && SquidKept(s.world, s'.world, id, Target(c))
  {
    match c
    case RunCall(call) =>
      RunBackground(s.world, s.memory, config, call);
      RunKeepsSquid(s.world, s.memory, config, call, id);
    case AttachCall(squid, account) => AttachKeeps(s.world, squid, account, id);
    case UpdateCall(squid, name, cfg) => UpdateKeeps(s.world, squid, name, cfg, id);
    case CreateCall(crawler, name, cfg) => CreateKeeps(s.world, crawler, name, cfg, id);
  }

  lemma {:induction false} HistoryKeeps(s: State, config: Config, calls: seq<ToolCall>, i: nat, id: nat)
    requires i <= |calls| && Valid(s.world) && id in s.world.squids
    ensures var w, w' := s.world, StateAt(s, config, calls, i).world;
      Background(w, w') && id in w'.squids && w'.squids[id].crawler == w.squids[id].crawler && w'.squids[id].shape == w.squids[id].shape
  {
    hide Step;
    if i > 0 {
      HistoryKeeps(s, config, calls, i - 1, id);
      StepKeeps(StateAt(s, config, calls, i - 1), config, calls[i - 1], id);
    }
  }

  // ---- accounts only grow ----

  /** Nothing is detached, and nothing is attached twice. */
  ghost predicate Extends(before: seq<string>, after: seq<string>) {
    before <= after && forall i | |before| <= i < |after| :: after[i] !in after[..i]
  }

  /** Every account attached since is connected, and of the platform. */
  ghost predicate OnlyOf(accounts: seq<Account>, platform: Option<string>, before: seq<string>, after: seq<string>) {
    forall i | |before| <= i < |after| :: Fits(accounts, platform, after[i])
  }

  ghost predicate Fits(accounts: seq<Account>, platform: Option<string>, account: string) {
    platform.Some? && OfPlatform(accounts, account, platform.value)
  }

  lemma ExtendsOnce(accounts: seq<Account>, platform: Option<string>, before: seq<string>, after: seq<string>)
    requires AccountsGrow(accounts, platform, before, after)
    ensures Extends(before, after) && OnlyOf(accounts, platform, before, after)
  {
    if after != before {
      assert after[..|before|] == before;
    }
  }

  lemma ExtendsTwice(accounts: seq<Account>, platform: Option<string>, a: seq<string>, b: seq<string>, c: seq<string>)
    requires Extends(a, b) && Extends(b, c)
    ensures Extends(a, c)
    ensures OnlyOf(accounts, platform, a, b) && OnlyOf(accounts, platform, b, c) ==> OnlyOf(accounts, platform, a, c)
  {
    forall i | |a| <= i < |c| ensures c[i] !in c[..i] {
      if i < |b| {
        assert c[..i] == b[..i] && c[i] == b[i];
      }
    }
    if OnlyOf(accounts, platform, a, b) && OnlyOf(accounts, platform, b, c) {
      forall i | |a| <= i < |c| ensures Fits(accounts, platform, c[i]) {
        if i < |b| {
          assert c[i] == b[i];
        }
      }
    }
  }

  /** The platform of the accounts a squid's own crawler needs. */
  function OwnPlatform(w: World, id: nat): Option<string>
    requires id in w.squids
  {
    var crawler := w.squids[id].crawler;
    if crawler in w.crawlers then w.crawlers[crawler].accountType else None
  }

  /** No run names another scraper with the squid than its own crawler. */
  predicate NamesOwnScraper(c: ToolCall, id: nat, crawler: string) {
    c.RunCall? && c.call.squidId == Some(id) ==> c.call.scraper.GetOr(crawler) == crawler
  }

  ghost predicate StepExtends(w: World, w': World, id: nat, own: bool)
    requires id in w.squids
  {
    && id in w'.squids && Extends(w.squids[id].accounts, w'.squids[id].accounts)
    && (own ==> OnlyOf(w.accounts, OwnPlatform(w, id), w.squids[id].accounts, w'.squids[id].accounts))
    && (w.squids[id].shape == OddShape ==> w'.squids[id].accounts == w.squids[id].accounts)
  }

  lemma RunExtends(w: World, memory: Memory, config: Config, call: Call, id: nat)
    requires Valid(w) && call.squidId == Some(id) && id in w.squids
    ensures StepExtends(w, RunScraper(w, memory, config, call).1, id, call.scraper.GetOr(w.squids[id].crawler) == w.squids[id].crawler)
  {
    var w' := RunScraper(w, memory, config, call).1;
    AccountsOnlyGrow(w, memory, config, call, id);
    ExtendsOnce(w.accounts, PlatformNeeded(w, call), w.squids[id].accounts, w'.squids[id].accounts);
    LoadIsQuiet(w, call);
  }

  lemma AttachExtends(w: World, id: nat, account: Option<string>)
    requires id in w.squids
    ensures StepExtends(w, AttachAccount(w, id, account).1, id, true)
  {
    var w' := AttachAccount(w, id, account).1;
    AttachOnlyGrows(w, id, account);
    ExtendsOnce(w.accounts, OwnPlatform(w, id), w.squids[id].accounts, w'.squids[id].accounts);
  }

  lemma ExtendsStep(s: State, config: Config, c: ToolCall, id: nat)
    requires Valid(s.world) && id in s.world.squids
    ensures StepExtends(s.world, Step(s, config, c).1.world, id, NamesOwnScraper(c, id, s.world.squids[id].crawler))
  {
    StepKeeps(s, config, c, id);
    if Target(c) == Some(id) {
      match c
      case RunCall(call) => RunExtends(s.world, s.memory, config, call, id);
      case AttachCall(_, account) => AttachExtends(s.world, id, account);
      case UpdateCall(_, name, cfg) => UpdateMerges(s.world, id, name, cfg);
    }
  }

  lemma StepsExtend(w: World, w1: World, w2: World, id: nat, own: bool, own1: bool)
    requires id in w.squids && id in w1.squids && w1.squids[id].crawler == w.squids[id].crawler
    requires w1.squids[id].shape == w.squids[id].shape && Background(w, w1)
    requires StepExtends(w, w1, id, own) && StepExtends(w1, w2, id, own1)
    ensures StepExtends(w, w2, id, own && own1)
  {
    ExtendsTwice(w.accounts, OwnPlatform(w, id), w.squids[id].accounts, w1.squids[id].accounts, w2.squids[id].accounts);
  }

  /** Whether the calls before `i` leave the squid to its own crawler. */
  predicate AllOwn(calls: seq<ToolCall>, i: nat, id: nat, crawler: string)
    requires i <= |calls|
  {
    forall j | 0 <= j < i :: NamesOwnScraper(calls[j], id, crawler)
  }

  /** Over any history of calls, with requests lost and rejected at will, a squid's accounts only grow: the
      list is extended at its end, without duplicates; by accounts of the platform its crawler needs, as
      long as no run names another scraper with it; and not at all when it cannot be read. */
  lemma {:induction false} AccountsOnlyGrowForever(s: State, config: Config, calls: seq<ToolCall>, i: nat, id: nat)
    requires i <= |calls| && Valid(s.world) && id in s.world.squids
    ensures StepExtends(s.world, StateAt(s, config, calls, i).world, id, AllOwn(calls, i, id, s.world.squids[id].crawler))
  {
    hide Step;
    if i > 0 {
      var t := StateAt(s, config, calls, i - 1);
      var crawler := s.world.squids[id].crawler;
      AccountsOnlyGrowForever(s, config, calls, i - 1, id);
      HistoryKeeps(s, config, calls, i - 1, id);
      ExtendsStep(t, config, calls[i - 1], id);
      StepsExtend(s.world, t.world, Step(t, config, calls[i - 1]).1.world, id,
                  AllOwn(calls, i - 1, id, crawler), NamesOwnScraper(calls[i - 1], id, crawler));
    }
  }

  // ---- the premise on scrapers is needed ----

  /** A squid without accounts, one connected account, of the other crawler's platform. */
  function TwoPlatforms(id: nat, own: string, other: string, p: string, q: string, account: string): World {
    var free := PriceList(None, NoRate, []);
    World(map[id := Squid.Squid(own, "s", [], map[], [], NullShape)], [], id + 1,
          map[own := Crawler(own, [], free, Some(p)), other := Crawler(other, [], free, Some(q))], map[],
          [Account(account, q, "200", false, false)], 1, "", [])
  }

  function Naming(scraper: string, id: nat): Call {
    Call(Some(scraper), [], true, Some("k"), Some(id), None, false, "u", 0.0, 0.0)
  }

  /** A run that names another scraper with a squid attaches an account of that scraper's platform to it. */
  lemma OtherScraperAttachesItsAccount(config: Config, id: nat, own: string, other: string, p: string, q: string, account: string)
    requires own != other && p != q
    ensures var w := TwoPlatforms(id, own, other, p, q, account);
      var w' := RunScraper(w, map[], config, Naming(other, id)).1;
      && OwnPlatform(w, id) == Some(p) && id in w'.squids && w'.squids[id].accounts == [account]
      && !OnlyOf(w.accounts, Some(p), w.squids[id].accounts, w'.squids[id].accounts)
  {
    var w, call := TwoPlatforms(id, own, other, p, q, account), Naming(other, id);
    OtherIsChosen(config, id, own, other, p, q, account);
    FaultFree.AnsweredCall(w, map[], config, call);
    hide RunScraper, RunNow, Prepare, LoadAll, ChooseAccounts, InputErrors;
    var l := LoadAll(w, call).0.loaded;
    FaultFree.ConfirmationIff(w, config, call, l);
    FaultFree.AnsweredRunOnSaved(w, config, call, l, id);
    assert !Fits(w.accounts, Some(p), [account][0]);
  }

  lemma OtherIsChosen(config: Config, id: nat, own: string, other: string, p: string, q: string, account: string)
    requires own != other && p != q
    ensures var w, call := TwoPlatforms(id, own, other, p, q, account), Naming(other, id);
      && LoadAll(w, call).0.LoadDone?
      && var l := LoadAll(w, call).0.loaded;
         LoadedFrom(w, call, l) && InputErrors(call, l) == [] && ChooseAccounts(w, call, l).0 == Attach(Some([account]))
  {
    hide SchemaTranslator.Translate;
    var w, call := TwoPlatforms(id, own, other, p, q, account), Naming(other, id);
    ReadsAllOrRefuses([], NullShape);
    OnlyCandidateIsPicked(w.accounts, q, 0);
  }

  // ---- settings survive ----

  /** The settings a call asks for on the squid. */
  function Asked(w: World, c: ToolCall, id: nat): Settings {
    match c
    case RunCall(call) => if call.squidId == Some(id) then SettingsSent(w, call) else map[]
    case UpdateCall(squid, _, cfg) => if squid == id && !Empty(cfg) then SettingsAsked(w, id, cfg) else map[]
    case _ => map[]
  }

  /** The call was answered with a success. */
  predicate Succeeded(a: Answer) {
    a == UpdateAnswer(Updated) || (a.RunAnswer? && a.response.Started?)
  }

  function Contribution(w: World, c: ToolCall, a: Answer, w': World, id: nat): seq<Settings> {
    var changed := id in w.squids && id in w'.squids && w.squids[id].params != w'.squids[id].params;
    if Succeeded(a) || changed then [Asked(w, c, id)] else []
  }

  /** The updates of the calls so far that took effect: those answered with a success, and those that went
      through although the answer was lost or a later step failed. */
  function UpdatesOf(s: State, config: Config, calls: seq<ToolCall>, i: nat, id: nat): seq<Settings>
    requires i <= |calls|
  {
    if i == 0 then []
    else
      var t := StateAt(s, config, calls, i - 1);
      var (a, t') := Step(t, config, calls[i - 1]);
      UpdatesOf(s, config, calls, i - 1, id) + Contribution(t.world, calls[i - 1], a, t'.world, id)
  }

  /** The one request whose failure update_scraper does not notice is answered. */
  predicate SquidRead(w: World, c: ToolCall, id: nat) {
    c.UpdateCall? && c.squid == id ==> Next(w).Answered?
  }

  ghost predicate StepMerges(w: World, c: ToolCall, a: Answer, w': World, id: nat) {
    && id in w.squids && id in w'.squids
    && var merged := Merge(w.squids[id].params, Asked(w, c, id));
    && (w'.squids[id].params == w.squids[id].params || w'.squids[id].params == merged)
    && (Succeeded(a) ==> w'.squids[id].params == merged)
  }

  lemma RunMerges(s: State, config: Config, call: Call, id: nat)
    requires Valid(s.world) && call.squidId == Some(id) && id in s.world.squids
    ensures var (a, s') := Step(s, config, RunCall(call)); StepMerges(s.world, RunCall(call), a, s'.world, id)
  {
    SettingsMerged(s.world, s.memory, config, call, id);
    AtMostOneRun(s.world, s.memory, config, call);
  }

  lemma MergesStep(s: State, config: Config, c: ToolCall, id: nat)
    requires Valid(s.world) && id in s.world.squids && SquidRead(s.world, c, id)
    ensures var (a, s') := Step(s, config, c); StepMerges(s.world, c, a, s'.world, id)
  {
    StepKeeps(s, config, c, id);
    MergeNothing(s.world.squids[id].params);
    if Target(c) == Some(id) {
      match c
      case RunCall(call) => RunMerges(s, config, call, id);
      case AttachCall(_, account) => AttachOnlyGrows(s.world, id, account);
      case UpdateCall(_, name, cfg) => UpdateMerges(s.world, id, name, cfg);
    }
  }

  /** Settings survive.  Over any history of calls in which update_scraper could read the squid, the
      settings it holds are the fold of the updates that took effect, in order, the last one to mention a
      setting or a toggle deciding it - although every save replaces them wholesale. */
  lemma {:induction false} SettingsAreTheFold(s: State, config: Config, calls: seq<ToolCall>, i: nat, id: nat)
    requires i <= |calls| && Valid(s.world) && id in s.world.squids
    requires forall j | 0 <= j < i :: SquidRead(StateAt(s, config, calls, j).world, calls[j], id)
    ensures var w' := StateAt(s, config, calls, i).world;
      id in w'.squids && w'.squids[id].params == Fold(s.world.squids[id].params, UpdatesOf(s, config, calls, i, id))
  {
    hide Step, Contribution, Asked, StepMerges;
    if i > 0 {
      var t := StateAt(s, config, calls, i - 1);
      SettingsAreTheFold(s, config, calls, i - 1, id);
      HistoryKeeps(s, config, calls, i - 1, id);
      MergesStep(t, config, calls[i - 1], id);
      var (a, t') := Step(t, config, calls[i - 1]);
      FoldStep(t.world, calls[i - 1], a, t'.world, id, s.world.squids[id].params, UpdatesOf(s, config, calls, i - 1, id));
    }
  }

  lemma FoldStep(w: World, c: ToolCall, a: Answer, w': World, id: nat, saved: Settings, updates: seq<Settings>)
    requires StepMerges(w, c, a, w', id) && w.squids[id].params == Fold(saved, updates)
    ensures w'.squids[id].params == Fold(saved, updates + Contribution(w, c, a, w', id))
  {
    FoldOne(saved, updates, Asked(w, c, id));
  }

  lemma FoldOne(saved: Settings, updates: seq<Settings>, u: Settings)
    ensures Fold(saved, updates + [u]) == Merge(Fold(saved, updates), u)
    ensures updates + [] == updates
  {
    assert (updates + [u])[..|updates|] == updates;
  }
}
