/** What the tools beside run_scraper make of a configuration and of an account, entry by entry. */
module ConfigLaws {
  import opened Wrappers
  import opened Dicts
  import opened Errors
  import opened Accounts
  import opened Pricing
  import opened SchemaTranslator
  import opened RemoteApi
  import opened RunFlow
  import opened RunScraperSafety
  import opened Primitives
  import V = Validation

  // ---- names ----

  function WireOf(wireNames: map<string, string>, k: string): string {
    if k in wireNames then wireNames[k] else k
  }

  /** No two keys go out under one name. */
  predicate Apart(d: Dict<Json>, wireNames: map<string, string>) {
    forall i, j | 0 <= i < j < |d| :: WireOf(wireNames, d[i].key) != WireOf(wireNames, d[j].key)
  }

  lemma {:induction false} RenamedIs(d: Dict<Json>, wireNames: map<string, string>, w: string)
    requires Apart(d, wireNames)
    ensures w in Renamed(d, wireNames) <==> exists i | 0 <= i < |d| :: WireOf(wireNames, d[i].key) == w
    ensures forall i | 0 <= i < |d| && WireOf(wireNames, d[i].key) == w :: w in Renamed(d, wireNames) && Renamed(d, wireNames)[w] == d[i].value
  {
    if d != [] {
      var init := d[..|d| - 1];
      assert forall i | 0 <= i < |init| :: init[i] == d[i];
      RenamedIs(init, wireNames, w);
    }
  }

  /** Every setting, and every toggle inside `functions`, is sent with its value under the name the API knows it
      by, and nothing else is sent. */
  lemma SentUnderWireNames(cfg: Settled, wireNames: map<string, string>, w: string)
    requires Apart(cfg.flat, wireNames) && (cfg.functions.Some? ==> Apart(cfg.functions.value, wireNames))
    ensures var sent := ApplyWireNames(cfg, wireNames);
      && (w != "functions" || cfg.functions.None? ==>
            && (w in sent <==> exists i | 0 <= i < |cfg.flat| :: WireOf(wireNames, cfg.flat[i].key) == w)
            && forall i | 0 <= i < |cfg.flat| && WireOf(wireNames, cfg.flat[i].key) == w :: w in sent && sent[w] == cfg.flat[i].value)
      && (cfg.functions.Some? ==>
            && "functions" in sent && sent["functions"].JDict?
            && var (toggles, functions) := (sent["functions"].entries, cfg.functions.value);
               && (w in toggles <==> exists i | 0 <= i < |functions| :: WireOf(wireNames, functions[i].key) == w)
               && forall i | 0 <= i < |functions| && WireOf(wireNames, functions[i].key) == w :: w in toggles && toggles[w] == functions[i].value)
  {
    RenamedIs(cfg.flat, wireNames, w);
    if cfg.functions.Some? {
      RenamedIs(cfg.functions.value, wireNames, w);
    }
  }

  // ---- defaults ----

  function LevelOf(t: Translated, k: string): Option<Level> {
    if k in t.levels then Some(t.levels[k]) else None
  }

  /** The toggle, or the setting, under which a default belongs. */
  predicate Has(cfg: Settled, toggle: bool, e: Entry<Json>) {
    e in if toggle then cfg.functions.GetOr([]) else cfg.flat
  }

  predicate Mentions(cfg: Settled, toggle: bool, k: string) {
    HasKey(if toggle then cfg.functions.GetOr([]) else cfg.flat, k)
  }

  /** One default: a toggle's goes inside `functions`, another one's among the settings, and a task's nowhere. */
  lemma WithDefaultIs(cfg: Settled, t: Translated, d: Entry<Json>, toggle: bool, e: Entry<Json>)
    ensures Has(WithDefault(cfg, t, d), toggle, e) <==>
            || Has(cfg, toggle, e)
            || (e == d && LevelOf(t, d.key) != Some(Level.Task) && (toggle <==> LevelOf(t, d.key) == Some(Level.Function))
                && !Mentions(cfg, toggle, d.key))
    ensures Mentions(WithDefault(cfg, t, d), toggle, e.key) <==>
            || Mentions(cfg, toggle, e.key)
            || (e.key == d.key && LevelOf(t, d.key) != Some(Level.Task) && (toggle <==> LevelOf(t, d.key) == Some(Level.Function)))
  {
    MoreKeys(cfg.flat, d, e.key);
    MoreKeys(cfg.functions.GetOr([]), d, e.key);
  }

  lemma MoreKeys(d: Dict<Json>, e: Entry<Json>, k: string)
    ensures HasKey(d + [e], k) <==> HasKey(d, k) || e.key == k
  {
    var more := d + [e];
    assert more[|d|] == e;
    assert forall i | 0 <= i < |d| :: more[i] == d[i];
  }

  /** The defaults of a crawler, each under one name. */
  lemma {:induction false} DefaultsFilledIn(cfg: Settled, t: Translated, defaults: Dict<Json>, toggle: bool, e: Entry<Json>)
    requires UniqueKeys(defaults)
    ensures Has(WithDefaults(cfg, t, defaults), toggle, e) <==>
            || Has(cfg, toggle, e)
            || (e in defaults && LevelOf(t, e.key) != Some(Level.Task) && (toggle <==> LevelOf(t, e.key) == Some(Level.Function))
                && !Mentions(cfg, toggle, e.key))
    ensures Mentions(WithDefaults(cfg, t, defaults), toggle, e.key) <==>
            || Mentions(cfg, toggle, e.key)
            || (HasKey(defaults, e.key) && LevelOf(t, e.key) != Some(Level.Task) && (toggle <==> LevelOf(t, e.key) == Some(Level.Function)))
  {
    if defaults != [] {
      var init, last := defaults[..|defaults| - 1], defaults[|defaults| - 1];
      assert defaults == init + [last];
      DefaultsFilledIn(cfg, t, init, toggle, e);
      DefaultsFilledIn(cfg, t, init, toggle, last);
      WithDefaultIs(WithDefaults(cfg, t, init), t, last, toggle, e);
      MoreKeys(init, last, e.key);
      hide WithDefault, Has, Mentions, LevelOf;
      assert !HasKey(init, last.key) by {
        assert forall i | 0 <= i < |init| :: init[i] == defaults[i] && defaults[i].key != defaults[|defaults| - 1].key;
      }
      assert e in defaults <==> e in init || e == last;
    }
  }

  // ---- what create_squid refuses ----

  /** A toggle, or a setting that no toggle has the name of. */
  predicate Configured(cfg: Settled, e: Entry<Json>) {
    e in cfg.functions.GetOr([]) || (e in cfg.flat && !HasKey(cfg.functions.GetOr([]), e.key))
  }

  /** A configuration with a value of the wrong type is refused before anything is created, toggles included, if
      the schema could be read. */
  lemma MistypedIsRefused(w: World, crawler: string, name: Option<string>, cfg: Settled, e: Entry<Json>)
    requires Configured(cfg, e) && (cfg.functions.Some? ==> UniqueKeys(cfg.functions.value))
    requires ReadSchema(w, crawler).0.Some? && !V.Fits(e, ReadSchema(w, crawler).0.value.properties)
    ensures var (a, w') := CreateSquidTool(w, crawler, name, cfg);
      a.ConfigRefused? && V.WrongType(e.key) in a.errors && Unchanged(w, w')
  {
    var t := ReadSchema(w, crawler).0.value;
    SchemaIsQuiet(w, crawler);
    OverlayKeeps(cfg.flat, cfg.functions.GetOr([]), e);
    var values := Flattened(cfg);
    var i :| 0 <= i < |values| && values[i] == e;
    hide ReadSchema, Flattened, CreateAndConfigure, V.Errors, V.Fits;
    V.ErrorsNameTheFaults(values, t, false, V.WrongType(e.key));
  }

  /** And nothing else is refused: what required fields are missing is no matter before rows are added. */
  lemma WellTypedIsCreated(w: World, crawler: string, name: Option<string>, cfg: Settled)
    requires forall e | e in Flattened(cfg) :: ReadSchema(w, crawler).0.Some? ==> V.Fits(e, ReadSchema(w, crawler).0.value.properties)
    ensures !CreateSquidTool(w, crawler, name, cfg).0.ConfigRefused?
  {
    hide ReadSchema, Flattened, V.Errors, V.Fits, CreateAndConfigure, WithDefaults, Empty;
    var (t, w1) := ReadSchema(w, crawler);
    ConfiguringRefusesNothing(w, crawler, name, cfg, map[]);
    ConfiguringRefusesNothing(w1, crawler, name, cfg, map[]);
    if t.Some? {
      V.ErrorsIff(Flattened(cfg), t.value, false);
      ConfiguringRefusesNothing(w1, crawler, name, WithDefaults(cfg, t.value, t.value.defaultsToFill), t.value.wireNames);
    }
  }

  lemma ConfiguringRefusesNothing(w: World, crawler: string, name: Option<string>, cfg: Settled, wireNames: map<string, string>)
    ensures !CreateAndConfigure(w, crawler, name, cfg, wireNames).0.ConfigRefused?
  {
    hide ApplyWireNames, NewSquidFailed;
  }

  /** A configuration that the API rejects takes the squid just created with it, if the deletion works; one whose
      answer was lost leaves the squid. */
  lemma RejectedIsDeleted(w: World, id: nat, u: Update)
    requires id in w.squids
    ensures var (a, w') := Configure(w, id, u);
      var first, second := Next(w), Next(Tick(w));
      && (first.Answered? <==> a == Created(id))
      && (!first.Answered? ==>
            && a.CreateFailed? && a.failure.squid == Some(id)
            && a.failure.error.code == Describe(Seen(first), true).code
            && a.failure.deleted == (if first.Rejected? then Some(second.Answered?) else None)
            && (id in w'.squids <==> !(first.Rejected? && Applied(second))))
  {
  }

  // ---- accounts ----

  /** Without a name nothing is attached to a squid that has an account. */
  lemma UnnamedAttachesTheFirst(w: World, id: nat)
    requires id in w.squids
    ensures var (a, w') := AttachAccount(w, id, None);
      && id in w'.squids
      && (w'.squids[id].accounts != w.squids[id].accounts ==> w.squids[id].accounts == [])
      && (a.Attached? ==> w.squids[id].accounts == [])
  {
    ReadsAllOrRefuses(w.squids[id].accounts, w.squids[id].shape);
    AttachOnlyGrows(w, id, None);
  }

  /** The caller is told what is wrong with an account only by an API that was heard: a lookup that was not
      answered at all is reported as such. */
  lemma ExplainedWasHeard(w: World, named: Option<string>, platform: string)
    ensures var (e, pick, w') := PickFor(w, named, platform);
      && (e.None? ==> !Seen(Next(w)).NoAnswer?)
      && (e.Some? ==> !Next(w).Answered? && e.value == Describe(Seen(Next(w)), true))
      && (named.None? && e.None? ==> Next(w).Answered?)
  {
  }
}
