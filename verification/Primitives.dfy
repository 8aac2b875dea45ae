/** The tools that work on a squid without running it: attach_account, update_scraper, create_squid. */
module Primitives {
  import opened Wrappers
  import opened Dicts
  import Text
  import opened Errors
  import opened Accounts
  import opened Pricing
  import opened SquidSettings
  import opened SchemaTranslator
  import opened RemoteApi
  import opened RunFlow
  import opened RunScraperSafety
  import RunScraperTheorems
  import V = Validation

  // ---- attach_account ----

  datatype AttachAnswer =
    | AttachFailed(error: ErrorInfo)
    | NoLoginNeeded
    | ListUnreadable
    | AlreadyAttached(current: seq<string>)
    | Explained(reason: AccountError)
    | Attached(account: string, accounts: seq<string>)

  /** The account named by the caller, or the one that can be picked without asking. */
  function PickFor(w: World, named: Option<string>, platform: string): (Option<ErrorInfo>, Pick, World) {
    var (o, w') := ReadOther(w);
    match named
    case Some(id) =>
      if o.NoAnswer? then (Some(Describe(o, true)), Refused(NotFoundHere), w')
      else (None, ResolveAccount(if o.Ok? then Find(w.accounts, id) else None, platform), w')
    case None =>
      if !o.Ok? then (Some(Describe(o, true)), Refused(NoneAvailable), w') else (None, PickOrExplain(w.accounts, platform), w')
  }

  /** The union of what is attached and the new account is written, or nothing. */
  function WriteUnion(w: World, id: nat, current: seq<string>, account: string): (AttachAnswer, World) {
    if account in current then (Attached(account, current), w)
    else
      var (o, w') := UpdateSquid(w, id, Update(None, None, Some(current + [account])));
      (if o.Ok? then Attached(account, current + [account]) else AttachFailed(Describe(o, true)), w')
  }

  function AttachTo(w: World, id: nat, shown: Json, platform: string, named: Option<string>): (AttachAnswer, World) {
    match AccountIds(shown)
    case None => (ListUnreadable, w)
    case Some(current) =>
      if named.None? && current != [] then (AlreadyAttached(current), w)
      else
        var (e, pick, w') := PickFor(w, named, platform);
        if e.Some? then (AttachFailed(e.value), w')
        else match pick
          case Refused(reason) => (Explained(reason), w')
          case Picked(account) => WriteUnion(w', id, current, account)
  }

  /** `attach_account_impl`. */
  function AttachAccount(w: World, id: nat, named: Option<string>): (AttachAnswer, World) {
    var (o, w1) := ReadSquid(w, id);
    if !o.Ok? then (AttachFailed(Describe(o, true)), w1)
    else
      var s := w.squids[id];
      var (o2, w2) := ReadCrawler(w1, s.crawler);
      if !o2.Ok? then (AttachFailed(Describe(o2, true)), w2)
      else match w.crawlers[s.crawler].accountType
        case None => (NoLoginNeeded, w2)
        case Some(platform) => AttachTo(w2, id, Shown(s.accounts, s.shape), platform, named)
  }

  // ---- update_scraper and create_squid ----

  /** The `config` argument: the settings, and the toggles nested under `functions` if the key is there. */
  datatype Settled = Settled(flat: Dict<Json>, functions: Option<Dict<Json>>)

  predicate Empty(cfg: Settled) {
    cfg.flat == [] && cfg.functions.None?
  }

  function Renamed(d: Dict<Json>, wireNames: map<string, string>): Settings {
    if d == [] then map[]
    else
      var last := d[|d| - 1];
      Renamed(d[..|d| - 1], wireNames)[(if last.key in wireNames then wireNames[last.key] else last.key) := last.value]
  }

  /** `_apply_wire_names`. */
  function ApplyWireNames(cfg: Settled, wireNames: map<string, string>): Settings {
    if cfg.functions.None? then Renamed(cfg.flat, wireNames)
    else Renamed(cfg.flat, wireNames)["functions" := JDict(Renamed(cfg.functions.value, wireNames))]
  }

  /** `_translated_schema`, where a crawler that cannot be read is no error. */
  function ReadSchema(w: World, crawler: string): (Option<Translated>, World) {
    var (o, w1) := ReadCrawler(w, crawler);
    if !o.Ok? then (None, w1)
    else
      var (params, w2) := ReadParams(w1, crawler);
      (Some(Translate(w.crawlers[crawler].items, params)), w2)
  }

  function WireNamesOf(t: Option<Translated>): map<string, string> {
    if t.Some? then t.value.wireNames else map[]
  }

  /** `_squid_and_wire_names`: a squid that cannot be read is taken to have nothing saved. */
  function SquidAndWireNames(w: World, id: nat): (map<string, string>, Option<Squid>, World) {
    var (o, w1) := ReadSquid(w, id);
    if !o.Ok? then (map[], None, w1)
    else if w.squids[id].crawler == "" then (map[], Some(w.squids[id]), w1)
    else
      var (t, w2) := ReadSchema(w1, w.squids[id].crawler);
      (WireNamesOf(t), Some(w.squids[id]), w2)
  }

  datatype UpdateAnswer = NothingToUpdate | UpdateFailed(error: ErrorInfo) | Updated

  /** What update_scraper sends. */
  function UpdateBody(id: nat, name: Option<string>, cfg: Settled, wireNames: map<string, string>, found: Option<Squid>): Update {
    if Empty(cfg) then Update(name, None, None)
    else
      var saved := if found.Some? then found.value.params else map[];
      var fallback := if found.Some? then OrElse(found.value.name, OrElse(found.value.crawler, Text.OfNat(id))) else Text.OfNat(id);
      Update(Some(name.GetOr(fallback)), Some(Merge(saved, ApplyWireNames(cfg, wireNames))), None)
  }

  /** `update_scraper_impl`. */
  function UpdateScraper(w: World, id: nat, name: Option<string>, cfg: Settled): (UpdateAnswer, World) {
    if name.None? && Empty(cfg) then (NothingToUpdate, w)
    else
      var (wireNames, found, w1) := SquidAndWireNames(w, id);
      var (o, w2) := UpdateSquid(w1, id, UpdateBody(id, name, cfg, wireNames, found));
      (if o.Ok? then Updated else UpdateFailed(Describe(o, true)), w2)
  }

  datatype CreateAnswer = ConfigRefused(errors: seq<V.Error>) | CreateFailed(failure: Failure) | Created(squid: nat)

  /** `cfg.setdefault`, in the nested dictionary for a function-level default; a task-level one is left out. */
  function WithDefault(cfg: Settled, t: Translated, d: Entry<Json>): Settled {
    var level := if d.key in t.levels then Some(t.levels[d.key]) else None;
    if level == Some(Task) then cfg
    else if level == Some(Function) then
      var functions := cfg.functions.GetOr([]);
      cfg.(functions := Some(if HasKey(functions, d.key) then functions else functions + [d]))
    else if HasKey(cfg.flat, d.key) then cfg
    else cfg.(flat := cfg.flat + [d])
  }

  function WithDefaults(cfg: Settled, t: Translated, defaults: Dict<Json>): Settled {
    if defaults == [] then cfg
    else WithDefault(WithDefaults(cfg, t, defaults[..|defaults| - 1]), t, defaults[|defaults| - 1])
  }

  /** The configuration laid flat for validation. */
  function Flattened(cfg: Settled): Dict<Json> {
    Overlay(cfg.flat, cfg.functions.GetOr([]))
  }

  /** The one write on the created squid; a rejected one deletes the squid again. */
  function Configure(w: World, id: nat, u: Update): (CreateAnswer, World) {
    var (o, w1) := UpdateSquid(w, id, u);
    if o.Ok? then (Created(id), w1)
    else if o.ApiError? then
      var (f, w2) := NewSquidFailed(w1, id, o);
      (CreateFailed(f), w2)
    else (CreateFailed(JustError(Briefly(o)).(squid := Some(id))), w1)
  }

  function CreateAndConfigure(w: World, crawler: string, name: Option<string>, cfg: Settled, wireNames: map<string, string>)
    : (CreateAnswer, World)
  {
    var (o, id, w1) := CreateSquid(w, crawler, name);
    if !o.Ok? then (CreateFailed(JustError(Describe(o, true))), w1)
    else if Empty(cfg) then (Created(id), w1)
    else Configure(w1, id, Update(Some(OrElse(name.GetOr(""), OrElse(GivenName(w, name), crawler))), Some(ApplyWireNames(cfg, wireNames)), None))
  }

  /** `create_squid_impl`. */
  function CreateSquidTool(w: World, crawler: string, name: Option<string>, cfg: Settled): (CreateAnswer, World) {
    if Empty(cfg) then CreateAndConfigure(w, crawler, name, cfg, map[])
    else
      var (t, w1) := ReadSchema(w, crawler);
      if t.None? then CreateAndConfigure(w1, crawler, name, cfg, map[])
      else
        var errors := V.Errors(Flattened(cfg), t.value, false);
        if errors != [] then (ConfigRefused(errors), w1)
        else CreateAndConfigure(w1, crawler, name, WithDefaults(cfg, t.value, t.value.defaultsToFill), t.value.wireNames)
  }

  // ---- attaching never detaches ----

  lemma PickIsOfPlatform(w: World, named: Option<string>, platform: string)
    ensures var (e, pick, w') := PickFor(w, named, platform);
      Unchanged(w, w') && (pick.Picked? ==> OfPlatform(w.accounts, pick.id, platform))
  {
    if named.Some? {
      ChosenIsOfPlatform(w.accounts, platform, named.value);
    } else if PickOrExplain(w.accounts, platform).Picked? {
      ChosenIsOfPlatform(w.accounts, platform, PickOrExplain(w.accounts, platform).id);
    }
  }

  /** How attaching ends: only the squid's account list may have changed, and only by one account of the
      platform at its end; an answer that names the list names the one the squid has. */
  ghost predicate AttachOk(w: World, id: nat, platform: string, a: AttachAnswer, w': World) {
    && OnlySquid(w, w', id)
    && w'.squids[id] == w.squids[id].(accounts := w'.squids[id].accounts)
    && RunScraperTheorems.AccountsGrow(w.accounts, Some(platform), w.squids[id].accounts, w'.squids[id].accounts)
    && (a.Attached? ==> w'.squids[id].accounts == a.accounts && a.account in a.accounts)
    && (!a.Attached? && !a.AttachFailed? ==> Unchanged(w, w'))
    && (w.squids[id].shape == OddShape ==> a.ListUnreadable? && w' == w)
  }

  lemma WriteUnionGrows(w: World, id: nat, account: string, platform: string)
    requires id in w.squids && w.squids[id].shape != OddShape && OfPlatform(w.accounts, account, platform)
    ensures var (a, w') := WriteUnion(w, id, w.squids[id].accounts, account); AttachOk(w, id, platform, a, w')
  {
    UpdateFacts(w, id, Update(None, None, Some(w.squids[id].accounts + [account])));
  }

  lemma AttachToGrows(w: World, id: nat, platform: string, named: Option<string>)
    requires id in w.squids
    ensures var (a, w') := AttachTo(w, id, Shown(w.squids[id].accounts, w.squids[id].shape), platform, named);
      AttachOk(w, id, platform, a, w')
  {
    hide WriteUnion, PickFor, PickOrExplain, ResolveAccount, Shown;
    ReadsAllOrRefuses(w.squids[id].accounts, w.squids[id].shape);
    PickIsOfPlatform(w, named, platform);
    var (e, pick, w') := PickFor(w, named, platform);
    if pick.Picked? && w.squids[id].shape != OddShape {
      WriteUnionGrows(w', id, pick.id, platform);
    }
  }

  /** The accounts of a squid only ever grow: attaching keeps the list as a prefix, appends at most one
      account, one not there yet and of the platform the crawler needs, and writes nothing at all when it
      refuses or cannot read the list. */
  lemma AttachOnlyGrows(w: World, id: nat, named: Option<string>)
    requires id in w.squids
    ensures var (a, w') := AttachAccount(w, id, named);
      Unchanged(w, w')
      || (w.squids[id].crawler in w.crawlers && w.crawlers[w.squids[id].crawler].accountType.Some?
          && w.squids[id].shape != OddShape
          && AttachOk(w, id, w.crawlers[w.squids[id].crawler].accountType.value, a, w'))
  {
    var (o, w1) := ReadSquid(w, id);
    if o.Ok? {
      var (o2, w2) := ReadCrawler(w1, w.squids[id].crawler);
      if o2.Ok? && w.crawlers[w.squids[id].crawler].accountType.Some? {
        AttachToGrows(w2, id, w.crawlers[w.squids[id].crawler].accountType.value, named);
      }
    }
  }

  // ---- updating keeps what is saved ----

  lemma SchemaIsQuiet(w: World, crawler: string)
    ensures Unchanged(w, ReadSchema(w, crawler).1)
  {
  }

  lemma SquidReadIsQuiet(w: World, id: nat)
    ensures Unchanged(w, SquidAndWireNames(w, id).2)
    ensures id in w.squids ==> SquidAndWireNames(w, id).1 == if Next(w).Answered? then Some(w.squids[id]) else None
    ensures !Next(w).Answered? ==> SquidAndWireNames(w, id).2 == Tick(w)
  {
    if id in w.squids {
      SchemaIsQuiet(ReadSquid(w, id).1, w.squids[id].crawler);
    }
  }

  /** The settings a call asks for, under the names the API knows, as far as the crawler could be read. */
  function SettingsAsked(w: World, id: nat, cfg: Settled): Settings {
    ApplyWireNames(cfg, SquidAndWireNames(w, id).0)
  }

  lemma BodySaves(s: Squid, id: nat, name: Option<string>, cfg: Settled, wireNames: map<string, string>, found: Option<Squid>)
    ensures var s' := Saved(s, UpdateBody(id, name, cfg, wireNames, found));
      && s'.tasks == s.tasks && s'.accounts == s.accounts
      && s'.params == if Empty(cfg) then s.params
                      else Merge(if found.Some? then found.value.params else map[], ApplyWireNames(cfg, wireNames))
  {
  }

  /** Updating touches settings and name alone.  If the squid could be read, the settings are the saved
      ones, or those with the call's own on top, and the latter when it is answered. */
  lemma UpdateMerges(w: World, id: nat, name: Option<string>, cfg: Settled)
    requires id in w.squids
    ensures var (a, w') := UpdateScraper(w, id, name, cfg);
      var asked := if Empty(cfg) then map[] else SettingsAsked(w, id, cfg);
      && OnlySquid(w, w', id)
      && w'.squids[id].tasks == w.squids[id].tasks && w'.squids[id].accounts == w.squids[id].accounts
      && (Next(w).Answered? ==>
            && (w'.squids[id].params == w.squids[id].params || w'.squids[id].params == Merge(w.squids[id].params, asked))
            && (a.Updated? ==> w'.squids[id].params == Merge(w.squids[id].params, asked)))
      && (a.NothingToUpdate? ==> w' == w)
  {
    if name.Some? || !Empty(cfg) {
      var (wireNames, found, w1) := SquidAndWireNames(w, id);
      var u := UpdateBody(id, name, cfg, wireNames, found);
      SquidReadIsQuiet(w, id);
      RunScraperTheorems.MergeNothing(w.squids[id].params);
      UpdateFacts(w1, id, u);
      BodySaves(w.squids[id], id, name, cfg, wireNames, found);
    }
  }

  /** Each entry of `saved` is still in `after`, unchanged unless it was asked for. */
  ghost predicate EntriesSurvive(saved: Settings, asked: Settings, after: Settings) {
    forall k | k in saved :: k in after && (k in asked || after[k] == saved[k])
  }

  /** No saved setting is lost, and no toggle inside `functions`. */
  ghost predicate AllSurvive(saved: Settings, asked: Settings, after: Settings) {
    EntriesSurvive(saved, asked, after) && EntriesSurvive(FunctionsOf(saved), FunctionsOf(asked), FunctionsOf(after))
  }

  ghost predicate SettingsSurvive(w: World, id: nat, name: Option<string>, cfg: Settled)
    requires id in w.squids
  {
    var w' := UpdateScraper(w, id, name, cfg).1;
    id in w'.squids && AllSurvive(w.squids[id].params, SettingsAsked(w, id, cfg), w'.squids[id].params)
  }

  /** The call restates every saved setting, and every saved toggle. */
  predicate Restates(asked: Settings, saved: Settings) {
    saved.Keys <= asked.Keys && FunctionsOf(saved).Keys <= FunctionsOf(asked).Keys
  }

  /** The call does not overwrite saved toggles with something that is no dictionary. */
  predicate SparesToggles(asked: Settings, saved: Settings) {
    FunctionsOf(saved) == map[] || TogglesOnly(asked)
  }

  lemma MergedSurvive(saved: Settings, asked: Settings)
    ensures AllSurvive(saved, asked, Merge(saved, asked)) <==> SparesToggles(asked, saved)
  {
    forall k | k in saved && k != "functions" ensures k in Merge(saved, asked) && (k in asked || Merge(saved, asked)[k] == saved[k]) {
      MergeFlat(saved, asked, k);
    }
    MergeFunctions(saved, asked);
    if !SparesToggles(asked, saved) {
      var f :| f in FunctionsOf(saved);
    }
  }

  lemma ReplacedSurvive(saved: Settings, asked: Settings)
    ensures AllSurvive(saved, asked, asked) <==> Restates(asked, saved)
  {
    if !(FunctionsOf(saved).Keys <= FunctionsOf(asked).Keys) {
      var f :| f in FunctionsOf(saved) && f !in FunctionsOf(asked);
    }
    if !(saved.Keys <= asked.Keys) {
      var k :| k in saved && k !in asked;
    }
  }

  /** What update_scraper leaves of the settings, by what became of its read and its write. */
  lemma UpdateLeaves(w: World, id: nat, name: Option<string>, cfg: Settled)
    requires id in w.squids && !Empty(cfg)
    ensures var (saved, asked) := (w.squids[id].params, SettingsAsked(w, id, cfg));
      var w' := UpdateScraper(w, id, name, cfg).1;
      id in w'.squids && w'.squids[id].params ==
        if !Applied(Next(SquidAndWireNames(w, id).2)) then saved
        else if Next(w).Answered? then Merge(saved, asked) else asked
  {
    SquidReadIsQuiet(w, id);
    var (wireNames, found, w1) := SquidAndWireNames(w, id);
    BodySaves(w.squids[id], id, name, cfg, wireNames, found);
    MergeIntoNothing(ApplyWireNames(cfg, wireNames));
    hide UpdateBody, SquidAndWireNames, ApplyWireNames, Merge;
  }

  /** The settings are replaced wholesale, and when the squid cannot be read first there is nothing to
      merge into: then what the call does not restate is lost, settings and toggles alike, as soon as the
      write gets through.  Otherwise nothing is, unless an alias of a setting called `functions` puts
      something else in the place of the toggles. */
  lemma SettingsSurviveIff(w: World, id: nat, name: Option<string>, cfg: Settled)
    requires id in w.squids
    ensures var (saved, asked) := (w.squids[id].params, SettingsAsked(w, id, cfg));
      SettingsSurvive(w, id, name, cfg) <==>
        || Empty(cfg) || !Applied(Next(SquidAndWireNames(w, id).2))
        || (if Next(w).Answered? then SparesToggles(asked, saved) else Restates(asked, saved))
  {
    var (saved, asked) := (w.squids[id].params, SettingsAsked(w, id, cfg));
    if Empty(cfg) {
      UpdateLeavesNameOnly(w, id, name, cfg);
    } else {
      UpdateLeaves(w, id, name, cfg);
      MergedSurvive(saved, asked);
      ReplacedSurvive(saved, asked);
    }
    hide UpdateScraper, Merge, SquidAndWireNames, SettingsAsked, SparesToggles, Restates;
  }

  lemma UpdateLeavesNameOnly(w: World, id: nat, name: Option<string>, cfg: Settled)
    requires id in w.squids && Empty(cfg)
    ensures var w' := UpdateScraper(w, id, name, cfg).1; id in w'.squids && w'.squids[id].params == w.squids[id].params
  {
    if name.Some? {
      SquidReadIsQuiet(w, id);
      var (wireNames, found, w1) := SquidAndWireNames(w, id);
      UpdateFacts(w1, id, UpdateBody(id, name, cfg, wireNames, found));
    }
  }

  /** A call that changes one toggle, on a squid it could not read, loses the others. */
  lemma UnreadTogglesAreLost(w: World, id: nat, a: string, b: string, v: Json)
    requires id in w.squids && a != b && w.script == [NotSent]
    requires w.squids[id].params == map["functions" := JDict(map[a := v, b := v])]
    ensures var cfg := Settled([], Some([Entry(a, JBool(false))]));
      var w' := UpdateScraper(w, id, None, cfg).1;
      && !SettingsSurvive(w, id, None, cfg)
      && id in w'.squids && w'.squids[id].params == map["functions" := JDict(map[a := JBool(false)])]
  {
    var cfg := Settled([], Some([Entry(a, JBool(false))]));
    assert [Entry(a, JBool(false))][..0] == [];
    assert ApplyWireNames(cfg, map[]) == map["functions" := JDict(map[a := JBool(false)])];
    assert b in FunctionsOf(w.squids[id].params) && b !in FunctionsOf(ApplyWireNames(cfg, map[]));
    assert SquidAndWireNames(w, id) == (map[], None, Tick(w));
    UpdateLeaves(w, id, None, cfg);
    SettingsSurviveIff(w, id, None, cfg);
    hide UpdateScraper, SettingsSurvive, ApplyWireNames;
  }

  // ---- creating leaves no anonymous squid ----

  /** A squid is called as asked; without a name, as the API calls it, or else by its crawler's id, once a
      configuration is saved with it. */
  predicate CreatedName(w: World, crawler: string, asked: Option<string>, name: string) {
    if asked.Some? && asked.value != "" then name == asked.value
    else name == w.autoName || (w.autoName == "" && name == crawler)
  }

  /** How creating ends, `n` being the id a new squid gets. */
  ghost predicate CreateOk(w: World, crawler: string, name: Option<string>, a: CreateAnswer, w': World, n: nat) {
    && OnlyNewSquid(w, w', n) && w'.runs == w.runs
    && (n in w'.squids ==> w'.squids[n].tasks == [] && w'.squids[n].crawler == crawler && CreatedName(w, crawler, name, w'.squids[n].name))
    && match a
       case Created(id) => id == n && n in w'.squids
       case ConfigRefused(_) => n !in w'.squids
       case CreateFailed(f) =>
         && (n in w'.squids ==> f.squid == Some(n) || (f.squid.None? && f.error.state == Some(StateUnknown)))
         && (f.deleted == Some(true) ==> n !in w'.squids)
  }

  lemma ConfigureFacts(w: World, w1: World, n: nat, u: Update)
    requires OnlyNewSquid(w, w1, n) && n in w1.squids && u.name.Some? && u.params.Some?
    ensures var (a, w') := Configure(w1, n, u);
      && OnlyNewSquid(w, w', n) && w'.runs == w1.runs && !a.ConfigRefused?
      && (n in w'.squids ==>
            var (s, s') := (w1.squids[n], w'.squids[n]);
            s'.tasks == s.tasks && s'.crawler == s.crawler && (s'.name == s.name || s'.name == u.name.value))
      && (a.Created? ==> a.squid == n && n in w'.squids && w'.squids[n].params == u.params.value)
      && (a.CreateFailed? ==> a.failure.squid == Some(n) && (a.failure.deleted == Some(true) ==> n !in w'.squids))
  {
    var (o2, w2) := UpdateSquid(w1, n, u);
    UpdateFacts(w1, n, u);
    StillOnlyNew(w, w1, w2, n);
    if o2.ApiError? {
      NewSquidFailedFacts(w2, n, o2);
      var (f, w3) := NewSquidFailed(w2, n, o2);
      if w3.squids == w2.squids {
        assert OnlySquid(w2, w3, n);
      }
      StillOnlyNew(w, w2, w3, n);
    }
  }

  lemma CreateAndConfigureFacts(w: World, crawler: string, name: Option<string>, cfg: Settled, wireNames: map<string, string>)
    requires Valid(w)
    ensures var (a, w') := CreateAndConfigure(w, crawler, name, cfg, wireNames);
      && CreateOk(w, crawler, name, a, w', w.nextId)
      && (a.Created? && !Empty(cfg) ==> w'.squids[w.nextId].params == ApplyWireNames(cfg, wireNames))
  {
    hide ApplyWireNames, Configure;
    var (o, id, w1) := CreateSquid(w, crawler, name);
    CreateFacts(w, crawler, name);
    if o.Ok? && !Empty(cfg) {
      var u := Update(Some(OrElse(name.GetOr(""), OrElse(GivenName(w, name), crawler))), Some(ApplyWireNames(cfg, wireNames)), None);
      ConfigureFacts(w, w1, id, u);
      var (a, w') := Configure(w1, id, u);
      assert CreateAndConfigure(w, crawler, name, cfg, wireNames) == (a, w');
      assert CreateOk(w, crawler, name, a, w', id);
    }
  }

  /** No anonymous orphan: a squid left behind is named in the answer unless the answer to its creation was
      lost, one said to be deleted is gone, and a refused configuration creates none. */
  lemma CreateNamesItsSquid(w: World, crawler: string, name: Option<string>, cfg: Settled)
    requires Valid(w)
    ensures var (a, w') := CreateSquidTool(w, crawler, name, cfg); CreateOk(w, crawler, name, a, w', w.nextId)
  {
    assert w.nextId !in w.squids && w.squids - {w.nextId} == w.squids;
    if Empty(cfg) {
      CreateAndConfigureFacts(w, crawler, name, cfg, map[]);
    } else {
      var (t, w1) := ReadSchema(w, crawler);
      SchemaIsQuiet(w, crawler);
      if t.None? {
        CreateAndConfigureFacts(w1, crawler, name, cfg, map[]);
      } else {
        CreateAndConfigureFacts(w1, crawler, name, WithDefaults(cfg, t.value, t.value.defaultsToFill), t.value.wireNames);
      }
    }
  }
}
