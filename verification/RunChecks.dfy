/** What a run_scraper call has passed, and what it has settled, before it writes anything. */
module RunChecks {
  import opened Wrappers
  import opened Dicts
  import opened Errors
  import opened Accounts
  import opened Pricing
  import opened Idempotency
  import opened SchemaTranslator
  import opened Routing
  import opened RemoteApi
  import opened RunFlow
  import opened RunScraperSafety
  import opened RunScraperTheorems
  import V = Validation

  // ---- the input ----

  /** The key goes into the task row. */
  predicate ForTheRow(t: Translated, k: string) {
    k in t.levels ==> t.levels[k] !in {Level.Squid, Level.Cluster, Level.Function}
  }

  /** A call goes past the checks of its input exactly when each value is of its type, and all that is required
      is there - which is asked of a new squid, and of a saved one only if the call has something for a row. */
  lemma ChecksIff(call: Call, l: Loaded)
    ensures InputErrors(call, l) == [] <==>
            V.Acceptable(call.input, l.schema, call.squidId.None? || exists i | 0 <= i < |call.input| :: ForTheRow(l.schema, call.input[i].key))
  {
    V.ErrorsIff(call.input, l.schema, call.squidId.None? || HasTaskInput(l.schema, call.input));
    assert forall i | 0 <= i < |call.input| ::
        BucketOfKey(l.schema, call.input[i].key) == TaskRow <==> ForTheRow(l.schema, call.input[i].key);
  }

  /** A call that started a run, on a squid of whichever kind, had what its row requires, under every script. */
  lemma RunHadItsInput(w: World, memory: Memory, config: Config, call: Call) returns (l: Loaded)
    requires Valid(w) && NewRun(w, RunScraper(w, memory, config, call).1)
    ensures LoadAll(w, call).0 == LoadDone(l)
    ensures V.Acceptable(call.input, l.schema, call.squidId.None? || exists i | 0 <= i < |call.input| :: ForTheRow(l.schema, call.input[i].key))
  {
    var facts := CallFacts(w, memory, config, call);
    l := facts.value;
    hide RunScraper, LoadAll, RunNow, Prepare;
    ChecksIff(call, l);
  }

  // ---- the accounts ----

  /** Once the accounts are settled, whatever the script: a crawler that needs none gets none, and the call named
      none; one that needs one has at least one attached, the named one among them; and what was attached
      already is left as it is unless another one was named. */
  lemma AccountsSettled(w: World, call: Call, l: Loaded)
    requires ChooseAccounts(w, call, l).0.Attach?
    ensures var attach := ChooseAccounts(w, call, l).0.accounts;
      var current := if l.existing.Some? then l.existing.value.accounts else [];
      && (l.existing.Some? ==> l.existing.value.shape != OddShape)
      && if l.crawler.accountType.None? then attach.None? && call.accountId.None?
         else
           && attach.GetOr(current) != []
           && (call.accountId.Some? ==> call.accountId.value in attach.GetOr(current))
           && (call.accountId.None? && current != [] ==> attach.None?)
  {
    if l.existing.Some? {
      ReadsAllOrRefuses(l.existing.value.accounts, l.existing.value.shape);
    }
    if call.accountId.Some? && l.crawler.accountType.Some? {
      ChosenIsOfPlatform(w.accounts, l.crawler.accountType.value, call.accountId.value);
    }
  }

  /** An account is named for a crawler that needs none exactly when the call is told so. */
  lemma NoAccountNeededIff(w: World, call: Call, l: Loaded)
    ensures ChooseAccounts(w, call, l).0 == AccountStop(NoAccountNeeded) <==>
            l.crawler.accountType.None? && call.accountId.Some? && (l.existing.None? || l.existing.value.shape != OddShape)
  {
    if l.existing.Some? {
      ReadsAllOrRefuses(l.existing.value.accounts, l.existing.value.shape);
    }
  }

  // ---- the confirmation ----

  /** A call that has to be confirmed is told how many rows it would scrape, unless they could not be listed. */
  lemma RowsUnknownIff(w: World, config: Config, call: Call, l: Loaded)
    requires LoadedFrom(w, call, l) && Prepare(w, config, call, l).0.QuoteStopped?
    requires Prepare(w, config, call, l).0.response.NeedsConfirmation?
    ensures Prepare(w, config, call, l).0.response.rowsThisRun.None? <==> call.squidId.Some? && !RowsListed(w, call, l)
    ensures !call.confirm
  {
    ChoiceIsQuiet(w, call, l);
    hide EstimateOf, EffectiveSettings, TaskParams, ReadableRows;
  }

  // ---- the balance ----

  /** No call goes ahead whose balance could not be read; it is the last thing read. */
  lemma BalanceWasRead(w: World, config: Config, call: Call, l: Loaded, accounts: Option<seq<string>>)
    requires QuoteRun(w, config, call, l, accounts).0.Quoted?
    ensures Next(if call.squidId.Some? then Tick(w) else w).Answered?
    ensures QuoteRun(w, config, call, l, accounts).1 == if call.squidId.Some? then Tick(Tick(w)) else Tick(w)
  {
  }

  // ---- the memory ----

  /** A run is remembered for two minutes under a key that was made up for the call, and for the store's own
      lifetime, a day unless it is set, under the caller's. */
  lemma RunIsRemembered(w: World, memory: Memory, config: Config, call: Call, later: real) returns (key: string)
    requires Valid(w) && RunScraper(w, memory, config, call).0.Started?
    ensures LoadAll(w, call).0.LoadDone? && key == KeyOf(config, call, LoadAll(w, call).0.loaded)
    ensures var (r, w', m') := RunScraper(w, memory, config, call);
      var life := if call.idempotencyKey.None? then 120.0 else config.defaultTtl;
      && Recall(m', key, later) == (if life == 0.0 || later < call.doneAt + life then Some(r.run) else None)
      && (config.defaultTtl == DEFAULT_TTL && call.idempotencyKey.Some? ==>
            Recall(m', key, later) == if later < call.doneAt + 86400.0 then Some(r.run) else None)
  {
    LoadIsQuiet(w, call);
    hide RunNow, InputErrors, KeyOf, LoadedFrom;
    var (load, w1) := LoadAll(w, call);
    hide LoadAll;
    LoadStopsFailing(w, call);
    key := KeyOf(config, call, load.loaded);
    var run := RunScraper(w, memory, config, call).0.run;
    RememberedUntil(AfterRecall(memory, key, call.now), key, run, TtlOf(call), config.defaultTtl, call.doneAt, later);
    hide Remember, Recall, AfterRecall;
  }

  lemma LoadStopsFailing(w: World, call: Call)
    ensures LoadAll(w, call).0.LoadStopped? ==> !LoadAll(w, call).0.response.Started?
  {
    LoadIsQuiet(w, call);
  }
}
