# A verified model of the Lobstr MCP server

The server lets an AI client run paid scrapers on lobstr.io. This project models the parts of it that
can lose data, bill twice, hand out too much authority or garble an answer, and proves what they keep:
for every input, every sequence of calls, and every way in which the requests underneath can be
answered, rejected, not sent, or lost before or after they took effect.

`dafny verify dfyconfig.toml` checks everything.

## The parts

- **Printing** (`Toon*.dfy`): the TOON encoder, as functions and as the object that appends to its list of
  lines; a decoder; the proof that decoding inverts printing up to one normalisation, exactly which
  documents are printed without any loss, and which form each value is printed in.
- **Schema and routing** (`SchemaTranslator.dfy`, `SchemaLoops.dfy`, `SchemaLaws.dfy`, `Shadowing.dfy`,
  `Routing.dfy`, `ParamsPlacement.dfy`, `Described.dfy`, `Validation.dfy`): how a crawler's inputs become one flat schema with aliases, where
  `run_scraper` sends each value, whether the API lists it there, and what passing validation means for what
  is sent.
- **The paid run** (`RemoteApi.dfy`, `RunFlow.dfy`, `RunScraperSafety.dfy`, `RunScraperTheorems.dfy`,
  `NothingLost.dfy`, `RunChecks.dfy`, `SquidNames.dfy`, `RunScraperPrice.dfy`, `PriceBoundIff.dfy`, `FaultFree.dfy`,
  `RunScraperTool.dfy`; `Pricing.dfy`, `Bill.dfy`, `SquidSettings.dfy`, `Accounts.dfy`, `Idempotency.dfy`, `Errors.dfy` beside them): the remote API is a
  value that holds squids, runs and a *script*, the list of what will become of the requests to come. `RunFlow` says what a call reads, refuses,
  writes and answers under a script; `RunScraperTool` is the same as methods on an API object and a store,
  proved equal; the theorems about a call hold for all scripts, and those of `FaultFree` say exactly what it
  does when every request is answered.
- **The tools beside it and histories** (`Primitives.dfy`, `ConfigLaws.dfy`, `History.dfy`, `IdempotencyHistory.dfy`,
  `IdempotencyOnRedis.dfy`): `attach_account`, `update_scraper`, `create_squid`, and arbitrary sequences of
  calls of all four tools, with the idempotency store in the process or on Redis.
- **The authorization server** (`OAuthProvider.dfy`, `OAuthLineage.dfy`, `OAuthLifetimes.dfy`, `OAuthServer.dfy`, `RedisCells.dfy`,
  `TokenStores.dfy`, `BackendRefinement.dfy`, `OAuthBackends.dfy`): a state machine over authorize, consent, code exchange,
  refresh rotation, access and revocation; its lineage invariant; how long what it issues is good for; the
  object that runs it; and the refinement of the in-process stores by Redis.
- **Polling and ranking** (`WaitForRun.dfy`, `Ranking.dfy`).

## Where the code and its promises part

Each is a lemma with the exact condition, or a concrete case and the premise that rules it out.

- The printer's documentation says that it never loses data. It is lossless on exactly the plain objects
  (`LosslessIff`); a null and an empty string in a cell print alike (`NullAndEmptyCollide`).
- `tasks_lost = false` covers only the rows the client can read back and that fit on the pages it walks.
  For each call, it means that nothing was lost, whatever happens, exactly when every saved row is such a
  one, or the call replaces none or never gets to its writes (`NothingLostIff`).
- Naming another scraper together with a saved squid quotes the wrong price list
  (`OtherScraperEscapesTheBound`), and attaches the wrong platform's account
  (`OtherScraperAttachesItsAccount`); rows that could not be listed, or do not fit in the listing, are not
  in the quote (`UncountedRowsEscapeTheBound`, `UnlistedRowsEscapeTheBound`). `BoundedIff` says for each call
  exactly when its price is bounded, and `OneRowBoundsAllIff` for which prices and settings it is all the
  same.
- `update_scraper` merges into nothing when it cannot read the squid, and then replaces the saved settings,
  toggles included (`SettingsSurviveIff`, `UnreadTogglesAreLost`); it also puts the squid's id in the place of
  its name (`NameSurvivesIff`).
- A shadowed input without a declared level can be routed into the slot of the input that shadows it, and a
  setting called `functions` is overwritten by the toggles (`RoutingLosslessIff`, `UndeclaredLevelClashes`,
  `SettingCalledFunctionsIsLost`).
- `/params` is called authoritative about where each input goes, but it is not asked about an entry that
  shadows another: such an entry goes out at its declared level even if the API lists it elsewhere
  (`PlacedAsListedIff`, `ToggleGoesOutFlat`).
- Of the inputs that share a name, one shadowed entry is kept; a third level is dropped
  (`EveryLevelPublishedIff`, `ThirdLevelIsDropped`).
- A refresh is checked against the grant and not against the token presented, so it can widen the scopes
  again unless the endpoint in front checks the request (`NeverWidensIff`, `RunThatWidens`,
  `CheckedRequestNeverWidens`);
  section 6 of RFC 6749 does not allow a scope that was not originally granted, which does hold
  (`AccessIsConsented`).
- The expiry of a redeemed identity is stored and never looked at: the tokens issued on it outlive it, and
  rotations carry it on without end (`OutlivesIdentityIff`, `NeverLapses`).
- Revoking a refresh token leaves the access token issued with it accepted for the rest of its hour
  (`RevocationLeavesTheOther`); section 2.1 of RFC 7009 says that a server should invalidate it too.
- Redis drops a key up to a second early, because its lifetime is cut to whole seconds (`BackendsAgreeIff`,
  `FirstDifferenceIsAtExpiry`).
- docs/tools.md says that a squid whose configuration is rejected still exists; the code deletes it and says
  so, and the model follows the code (`CreateNamesItsSquid`).

## Model

| member | source | states |
|---|---|---|
| ToonRoundTrip.RoundTrip | src/lobstr_mcp/toon.py:25-141 | decoding the printed form of any object, of any nesting, gives the object back, normalised: an integral float is the integer, in a cell the empty string is null, a table row lists every column in order |
| ToonLossless.PrintAlikeIff | src/lobstr_mcp/toon.py:25-82 | two objects print alike exactly when the normalisation makes them equal |
| ToonLossless.LosslessIff | src/lobstr_mcp/toon.py:9-11 | an object reads back unchanged exactly when it has no integral float, no empty string in a cell and no ragged or reordered table row |
| ToonLossless.NullAndEmptyCollide | src/lobstr_mcp/toon.py:104-118 | two different objects with one printed form |
| ToonLossless.TopLevelList | src/lobstr_mcp/toon.py:31-32 | a list at top level prints as the object holding it under `items` |
| ToonEncoder.Encoder.ToToon | src/lobstr_mcp/toon.py:25-35 | the encoder object returns the document of its argument, whatever its lines held before |
| ToonEncoder.Encoder.EmitKv | src/lobstr_mcp/toon.py:38-47 | appends the lines of one entry and changes none before them |
| ToonEncoder.Encoder.EmitArray | src/lobstr_mcp/toon.py:50-82 | appends the lines of an array: empty, inline, tabular, or the JSON fallback |
| ToonEncoder.CollectColumns | src/lobstr_mcp/toon.py:64-71 | the nested loop with its set of seen keys collects each key once, in order of first appearance |
| ToonRoundTrip.ReadScalarOfScalar | src/lobstr_mcp/toon.py:93-135 | a value after a key reads back: no bare string is taken for a number, a keyword or a quoted string |
| ToonRoundTrip.ReadCellsOfCells | src/lobstr_mcp/toon.py:104-135 | a line of cells reads back as as many cells, whatever commas and quotes are inside |
| ToonRoundTrip.ReadKeyOfKey | src/lobstr_mcp/toon.py:138-141 | a key reads back up to the character that ends it |
| ToonLayout.ArrayLayout | src/lobstr_mcp/toon.py:50-82 | an array is printed on one line if its items are scalars, as a table with a line for its columns and one for each row if they are records of scalars, and as JSON only if something is nested |
| ToonLayout.ColumnsAre | src/lobstr_mcp/toon.py:64-71 | the columns are the keys that occur, each once, those of the first row first and in its order |
| ToonLayout.BareStringIff | src/lobstr_mcp/toon.py:93-132 | a string is printed bare exactly when nothing in it or around it could be read otherwise |
| ToonLayout.BareKeyIff | src/lobstr_mcp/toon.py:138-141 | and a key, exactly when no blank is around it and no character in it ends a key |
| SchemaTranslator.ResolveSound | src/lobstr_mcp/schema_translator.py:263-287 | the loop over the inputs: a name is required as soon as one of its entries is, and a shadowed entry never shares the level of the one that kept the name |
| SchemaTranslator.SearchAlias | src/lobstr_mcp/schema_translator.py:186-203 | the search ends within one more try than there are taken names, on the first candidate that is free |
| SchemaTranslator.FirstFreeIsFree | src/lobstr_mcp/schema_translator.py:198-203 | the alias found is not taken, as candidates differ |
| SchemaTranslator.DeclaredKept | src/lobstr_mcp/schema_translator.py:289-306 | a declared name is published as the entry that keeps it, at that entry's level, and is no alias |
| SchemaTranslator.AliasSound | src/lobstr_mcp/schema_translator.py:341-352 | an alias stands for a shadowed entry at the level worked out for it, equals no other published name and is not required |
| SchemaTranslator.AliasesDiffer | src/lobstr_mcp/schema_translator.py:341-352 | no two aliases stand for one name |
| SchemaTranslator.ShadowedIsPublished | src/lobstr_mcp/schema_translator.py:334-349 | the entry a name is left shadowing is published under an alias |
| SchemaLaws.KeptIsFirst | src/lobstr_mcp/schema_translator.py:263-285 | a name is kept by its first required entry, or by the first one if none is required |
| SchemaLaws.DeclaredAs | src/lobstr_mcp/schema_translator.py:174-183 | a declared input is published with its type, a string if it names none that is known, and its default |
| SchemaLaws.DeclaredAt | src/lobstr_mcp/schema_translator.py:85-112 | of the sections of `/params` the task one claims an input first, then the toggles, then the settings; unlisted ones, and those that shadow another, stay at their own level |
| SchemaLaws.AliasIsNamed | src/lobstr_mcp/schema_translator.py:186-203 | an alias is its level, an underscore and the API's name, numbered if that was taken |
| SchemaLaws.RequiredIff | src/lobstr_mcp/schema_translator.py:291-359 | a name is required exactly when its entry is and no default stands in for it; where groups are alternatives, only outside of them |
| SchemaLaws.ModesIff | src/lobstr_mcp/schema_translator.py:21-53 | there are input modes exactly when two groups have required entries |
| SchemaLaws.EitherIff | src/lobstr_mcp/schema_translator.py:21-53 | the modes are the groups with required entries, each asking for all of these by name |
| SchemaLaws.FilledInIff | src/lobstr_mcp/schema_translator.py:291-296 | the defaults to fill in are those of the required entries outside any group |
| Described.PublishedIff | src/lobstr_mcp/schema_translator.py:289-349 | published are the declared inputs, those `/params` describes, and the aliases, and nothing else |
| Described.DescribedIsPublished | src/lobstr_mcp/schema_translator.py:132-171 | an input that only `/params` describes, as a setting or a toggle, is published at a level the API lists it at, with the type and default of what describes it |
| Described.AcceptsLikeItsDefault | src/lobstr_mcp/schema_translator.py:115-129 | without a type of its own it accepts exactly the values of its default's type, and refuses others by name |
| Described.UndescribedGoesToTheRow | src/lobstr_mcp/schema_translator.py:166-170 | a key nothing describes goes into the task row, listed with a bare value or not |
| Shadowing.EveryLevelPublishedIff | src/lobstr_mcp/schema_translator.py:271-349 | every level at which a name is declared has an entry of that name published exactly when there are at most two of them |
| Shadowing.EveryLevelSentIff | src/lobstr_mcp/schema_translator.py:286-349 | without `/params`, a name declared at explicit levels can be sent at each of them exactly when they are at most two |
| Shadowing.ThirdLevelIsDropped | src/lobstr_mcp/schema_translator.py:286-287 | a name at task, squid and function level: the squid-level entry is overwritten, and no published key sends the name at that level |
| SchemaTranslator.SameDomain | src/lobstr_mcp/schema_translator.py:289-349 | properties and levels have the same names |
| SchemaTranslator.RequiredAreDeclared | src/lobstr_mcp/schema_translator.py:329-359 | only declared inputs are required, never one that only the parameters list |
| SchemaLoops.LevelsFromParamsDict | src/lobstr_mcp/schema_translator.py:56-82 | the loops over both sections collect, for every name, exactly the levels it is listed at |
| SchemaLoops.MergeEntries | src/lobstr_mcp/schema_translator.py:271-287 | the dictionaries filled by the loop hold what each name resolves to, in order of first appearance |
| SchemaLoops.InputModesLoop | src/lobstr_mcp/schema_translator.py:21-53 | the groups and always-required fields are those of the entries that keep their names |
| SchemaLoops.TranslateInputSchema | src/lobstr_mcp/schema_translator.py:249-374 | the whole translation, loop after loop, yields the specified schema |
| Routing.RouteInput | src/lobstr_mcp/execution.py:540-556 | one pass over the input yields the task row and the squid params, toggles nested |
| Routing.OneValueRouted | src/lobstr_mcp/execution.py:548-556 | squid and cluster level go to the params, function level inside `functions`, everything else to the row, each under its wire name |
| Routing.RoutingLosslessIff | src/lobstr_mcp/execution.py:548-556 | for every crawler: every value of every input is received in the row, the params or the nested toggles of the level it is published at, under its wire name, and nothing else is received, exactly when no shadowed entry is published into the bucket of the entry that kept its name and no setting goes out as `functions` beside a toggle |
| Routing.DeclaredLevelsNeverClash | src/lobstr_mcp/schema_translator.py:235-246 | with declared levels a shadowed entry always goes to another bucket |
| Routing.RoutingLossless | src/lobstr_mcp/execution.py:548-556 | what goes out loses nothing for every crawler that declares its levels and has no setting going out as `functions` beside a toggle |
| Routing.SettingCalledFunctionsIsLost | src/lobstr_mcp/execution.py:552-553 | a crawler with declared levels and no clash on which a setting called `functions` is overwritten by the toggles, whatever its value |
| Routing.FunctionsNested | src/lobstr_mcp/execution.py:550-553 | the nested toggles take no other value's place unless a squid-level input is called `functions` |
| Routing.UndeclaredLevelClashes | src/lobstr_mcp/schema_translator.py:246 | a shadowed entry without a level meets the squid-level entry of its name |
| ParamsPlacement.PlacedAsListedIff | src/lobstr_mcp/schema_translator.py:205-349 | every key whose name `/params` lists is published at a level it lists there, exactly when each name that shadows an entry, if it is listed, is listed at the kept entry's level and at just one other or at the shadowed entry's own |
| Described.RoutedAsListed | src/lobstr_mcp/execution.py:447-556 | then, with declared levels and no setting called `functions` beside a toggle, every value of every input that is published or described is received at a place where `/params` lists its name |
| ParamsPlacement.ToggleGoesOutFlat | src/lobstr_mcp/schema_translator.py:296-304 | an input declared at squid level that `/params` lists as a toggle, beside a task input of its name, goes out as a flat setting |
| Validation.ValidateInput | src/lobstr_mcp/safeguards.py:22-53 | the errors are empty exactly for inputs whose required fields, group and types are right |
| Validation.ErrorsNameTheFaults | src/lobstr_mcp/safeguards.py:22-53 | each error names a required field that is missing or a value of another type than its property's, and each of those has its error |
| Validation.TypeOkIff | src/lobstr_mcp/safeguards.py:12-19 | an integer is of type integer and number, a float of type number, any other value of its own type alone, and null of none |
| Validation.InferredKind | src/lobstr_mcp/schema_translator.py:115-129 | the type read off a default is the one the validation knows its value by |
| Validation.UngroupedHaveValues | src/lobstr_mcp/safeguards.py:37-40 | every required ungrouped entry has a value once defaults are filled in |
| Validation.OneGroupSupplied | src/lobstr_mcp/safeguards.py:41-45 | one whole group of required entries is present whenever any group has one |
| Validation.ValidationSound | src/lobstr_mcp/execution.py:470-481 | for a new squid, passing validation means that each of these values reaches the bucket of its level |
| Validation.FilledValueIsSent | src/lobstr_mcp/execution.py:479-481 | filling in defaults overrides nothing the caller gave: each such value, and each default not overridden, is what its bucket holds |
| Validation.FilledValueIsReceived | src/lobstr_mcp/execution.py:479-556 | and what goes out in that place, if no setting goes out as `functions` beside a toggle |
| Pricing.EstimateCost | src/lobstr_mcp/safeguards.py:88-202 | the loops over paid steps and the total compute the estimate |
| Bill.EstimateIsBill | src/lobstr_mcp/safeguards.py:88-202 | the estimate is so much a task, or else the rounded bill of the rows the caps allow: the row rate, and for each paid input that is on its rate for the rows it succeeds on |
| Bill.CostIsBill | src/lobstr_mcp/safeguards.py:88-202 | the cost the bounds speak of is that same bill |
| Bill.DefaultsCanBeSpelledOut | src/lobstr_mcp/safeguards.py:117-125 | a step counts by default: spelling the default out changes no estimate |
| Bill.TogglesOverrideFlat | src/lobstr_mcp/safeguards.py:117-125 | a toggle in `functions` overrides the flat setting of its name |
| Bill.SwitchingOffSavesItsShare | src/lobstr_mcp/safeguards.py:117-134 | switching a step off takes exactly its own share off the bill |
| Bill.TwentyOrTwentySix | src/lobstr_mcp/safeguards.py:93-99 | the documented case of a step that is on by default |
| Bill.RoundsToNearest | src/lobstr_mcp/safeguards.py:195-196 | the total is rounded to the nearest ten-thousandth, from halfway to the even one |
| Pricing.QuoteBoundsCost | src/lobstr_mcp/safeguards.py:136-202 | any yield both caps allow, on no more rows than quoted, costs at most the quote, up to rounding |
| Pricing.QuoteIsReached | src/lobstr_mcp/safeguards.py:185-202 | the bound is tight: a yield at the cap costs the quote |
| Pricing.OneRowBoundsAllIff | src/lobstr_mcp/safeguards.py:157-202 | the quote for one row bounds any number of rows exactly when tasks are free, or the price is per row and either the whole run is capped or neither rows nor steps cost anything |
| Pricing.NegativeRateBreaksTheBound | src/lobstr_mcp/safeguards.py:56-69 | a negative rate, which is not refused, breaks the bound |
| SquidSettings.MergeAssociativeIff | src/lobstr_mcp/execution.py:385-397 | merging is associative exactly when the middle update does not overwrite toggles that the last one restates only in part |
| SquidSettings.MergeAssociative | src/lobstr_mcp/execution.py:385-397 | merging is associative for updates whose `functions` is a dictionary |
| SquidSettings.LastWriterWins | src/lobstr_mcp/execution.py:385-397 | in a fold of updates the last one to mention a setting decides it, and unmentioned ones stay |
| SquidSettings.LastToggleWins | src/lobstr_mcp/execution.py:394-396 | and likewise each toggle inside `functions` |
| SquidSettings.FoldIsOneMerge | src/lobstr_mcp/execution.py:385-397 | updates may be combined first and merged once |
| Errors.UnknownCoversEveryLostWrite | src/lobstr_mcp/errors.py:75-163 | a write that took effect unanswered is reported as unknown, and exactly those never sent are reported so and called safe to retry |
| Errors.CodeMeans | src/lobstr_mcp/errors.py:75-125 | a code can be read back to the type of the error, or to its status |
| Accounts.ReadsAllOrRefuses | src/lobstr_mcp/account_linking.py:55-79 | reading the account list gives all of it back or refuses |
| Accounts.NoneIsLeftOut | src/lobstr_mcp/account_linking.py:55-79 | whatever the API shows, what is read is the id of every entry in order, or nothing |
| Accounts.ChosenIsOfPlatform | src/lobstr_mcp/account_linking.py:134-227 | a chosen account is connected and of the platform; one picked unnamed is the only healthy unlocked one |
| Accounts.OnlyCandidateIsPicked | src/lobstr_mcp/account_linking.py:187-200 | the only healthy unlocked account of the platform is always picked |
| Accounts.PickedIs | src/lobstr_mcp/account_linking.py:134-227 | what is picked unnamed is live, its cookies valid, unlocked and of the platform; a refusal says truly whether there are several such, only locked ones, or none |
| Accounts.NamedIs | src/lobstr_mcp/account_linking.py:147-184 | a named account is taken exactly if it exists and is of the platform |
| Idempotency.KindsNeverCollide | src/lobstr_mcp/execution.py:486-492 | a caller's own key and a derived one never meet, for any users |
| Idempotency.ExplicitKeysDiffer | src/lobstr_mcp/execution.py:487-488 | explicit keys meet only for one user and one key |
| Idempotency.DerivedKeysDiffer | src/lobstr_mcp/safeguards.py:228-232 | derived keys meet only for one user, target and printed input |
| Idempotency.IdempotencyStore.Get | src/lobstr_mcp/safeguards.py:242-250 | returns the live run of a key and drops an expired entry |
| Idempotency.IdempotencyStore.Put | src/lobstr_mcp/safeguards.py:252-255 | remembers a run for the given lifetime, for ever when that is zero |
| RemoteApi.AddRowsKeeps | src/lobstr_mcp/execution.py:235-239 | adding rows keeps what is there and what is added, without duplicates |
| RunScraperTool.SnapshotTasks | src/lobstr_mcp/execution.py:112-133 | the loop lists the readable rows and counts all |
| RunScraperTool.RestoreTasks | src/lobstr_mcp/execution.py:136-180 | puts the rows back or reports them, as specified |
| RunScraperTool.ReplaceSquidInput | src/lobstr_mcp/execution.py:183-255 | settings, emptying, new row, and the compensation of each failure, as specified |
| RunScraperTool.SaveSquidInput | src/lobstr_mcp/execution.py:258-295 | the rewrite that deletes nothing, as specified |
| RunScraperTool.NewSquidWriteFailed | src/lobstr_mcp/execution.py:88-109 | deletes the squid just created and says whether that worked |
| RunScraperTool.ResolveAccounts | src/lobstr_mcp/execution.py:497-538 | decides the account to save or the refusal, as specified |
| RunScraperTool.QuoteCall | src/lobstr_mcp/execution.py:558-615 | reads the rows, quotes the run on the effective settings, and asks for confirmation above the threshold |
| RunScraperTool.WriteReused | src/lobstr_mcp/execution.py:617-673 | the writes on a saved squid and the refusals before them, as specified |
| RunScraperTool.WriteNew | src/lobstr_mcp/execution.py:674-697 | the writes that make a new squid, as specified |
| RunScraperTool.LaunchRun | src/lobstr_mcp/execution.py:706-718 | starts the run, or restores the rows a rewrite deleted |
| RunScraperTool.RunScraper | src/lobstr_mcp/execution.py:428-753 | the whole call, with its store, does what the specification says to the API, the store and the answer |
| RunScraperSafety.RestoreFacts | src/lobstr_mcp/execution.py:136-180 | restoring reports honestly on rows that may be gone already, and touches nothing else |
| RunScraperSafety.ReplaceFacts | src/lobstr_mcp/execution.py:183-255 | a rewrite ends with the new row alone, or with an honest failure that says what became of the old rows |
| RunScraperSafety.ReplaceTellsCause | src/lobstr_mcp/execution.py:183-255 | a failed rewrite names the first of its requests that was not answered, and succeeds exactly when all are |
| RunScraperSafety.CommitReusedFacts | src/lobstr_mcp/execution.py:617-673 | committing changes one squid only, removes no row unasked, and leaves exactly what its answer says |
| RunScraperSafety.LaunchFacts | src/lobstr_mcp/execution.py:698-718 | at most one run appears, scraping the squid's rows under its settings, and the answer names it or says unknown, with the cause and what had been done to the rows |
| RunScraperSafety.RejectedIsDeleted | src/lobstr_mcp/execution.py:88-109 | a write on the new squid that is rejected deletes it, the answer says whether that worked, and one whose answer was lost leaves it |
| RunScraperSafety.CommitNewFacts | src/lobstr_mcp/execution.py:674-697 | a squid left behind is named, a deleted one is gone |
| RunScraperTheorems.RefusalsChangeNothing | src/lobstr_mcp/execution.py:428-669 | every refusal leaves everything upstream as it was |
| RunChecks.ChecksIff | src/lobstr_mcp/execution.py:466-478 | the input passes exactly when its values are of their types and what is required is there, which is asked of a new squid, and of a saved one only with something for a row |
| RunChecks.RunHadItsInput | src/lobstr_mcp/execution.py:466-478 | under every script, no run starts whose input did not pass |
| RunChecks.AccountsSettled | src/lobstr_mcp/execution.py:500-540 | a crawler without a platform is given no account, one with a platform has one, the named one included, and attached ones are left alone unless another is named |
| RunChecks.NoAccountNeededIff | src/lobstr_mcp/execution.py:516-520 | an account named for a crawler that needs none is refused |
| RunChecks.RowsUnknownIff | src/lobstr_mcp/execution.py:573-601 | a call to be confirmed is told how many rows it would scrape, unless they could not be listed |
| RunChecks.BalanceWasRead | src/lobstr_mcp/execution.py:603-607 | nothing is written before the balance was read |
| RunChecks.RunIsRemembered | src/lobstr_mcp/execution.py:484-495 | a run is remembered for exactly two minutes under a derived key, and the store's lifetime, a day by default, under the caller's |
| SquidNames.RunKeepsNames | src/lobstr_mcp/execution.py:627-680 | under every script, each squid that has a name keeps it; one without gets its crawler's name, or its id, if any; a new one is called as the API calls it, or like that |
| RunScraperTheorems.NoSilentLoss | src/lobstr_mcp/execution.py:112-255 | for every script: told that nothing is lost, every readable row that fits in a listing is there, and all are if the listing was not answered; told of loss, every such row is in the answer if the request that lists the rows was answered, and none is otherwise; else rows go only with `replaced`, which was asked for; and no other squid is touched |
| NothingLost.NothingLostIff | src/lobstr_mcp/execution.py:112-255 | for each call on a saved squid, a start that fails after a rewrite included: `tasks_lost = false` means that no row at all was lost, under every script, exactly when every saved row is readable and fits in a listing, or the call replaces no rows, or it would not get to its writes with its reads answered |
| RunScraperTheorems.RowsKeptUnlessReplaced | src/lobstr_mcp/execution.py:640-669 | without `replace_tasks` no saved row is removed, and a run scrapes the old rows or one new row on an empty squid |
| RunScraperTheorems.AtMostOneRun | src/lobstr_mcp/execution.py:706-720 | a call starts at most one run, which is the one answered unless the answer says unknown |
| RunScraperTheorems.NoAnonymousSquid | src/lobstr_mcp/execution.py:674-718 | a squid left behind is named in the answer unless the answer to its creation was lost; one said to be deleted is gone |
| RunScraperTheorems.SettingsMerged | src/lobstr_mcp/execution.py:625-632 | a squid's settings end as they were or with the call's own merged in, and a run executes under the latter |
| RunScraperTheorems.AccountsOnlyGrow | src/lobstr_mcp/execution.py:504-538 | a call appends at most one account, of the platform its crawler needs, and writes nothing when the list is unreadable |
| RunScraperTheorems.NewRunHasRequiredInputs | src/lobstr_mcp/execution.py:466-556 | under every script, a run on a squid made by the call scrapes one row; row, settings and toggles hold a value for every ungrouped required input, and for those of one whole group, where their levels put them, if the crawler declares its levels |
| RunScraperPrice.QuoteCoversRows | src/lobstr_mcp/execution.py:363-382 | the rows a run scrapes are no more than the quote covered |
| RunScraperPrice.PriceBound | src/lobstr_mcp/execution.py:558-697 | end to end: an unconfirmed run costs at most the threshold, up to rounding, for every yield its caps allow, on the rows and settings it runs with, if the squid is new, its rows are all listed or they are replaced, and no other scraper is named |
| PriceBoundIff.BoundedIff | src/lobstr_mcp/execution.py:448-697 | for each unconfirmed call on a saved squid: the bound holds of every run in every world without negative prices exactly when the call leaves the squid to its own crawler and the rows are all listed or replaced, or the threshold is negative |
| RunScraperPrice.CappedRunBound | src/lobstr_mcp/execution.py:558-697 | with a price per row and `max_unique_results_per_run` in the settings of the run, the bound holds whatever number of rows there are, listed or not |
| RunScraperPrice.CountedIff | src/lobstr_mcp/execution.py:612-703 | the answer to a call that started a run counts its rows, truly, exactly when the squid is new or its rows were all listed or replaced, and gives no count exactly when the listing was not answered and they were kept |
| RunScraperPrice.UncountedRowsEscapeTheBound | src/lobstr_mcp/execution.py:573 | any number of rows that could not be listed runs under the quote for one |
| RunScraperPrice.UnlistedRowsEscapeTheBound | src/lobstr_mcp/lobstr_client.py:187-197 | with every request answered, any number of rows past the end of the listing runs under the quote for the listed ones, which alone are counted in the answer |
| RunScraperPrice.OtherScraperEscapesTheBound | src/lobstr_mcp/execution.py:448 | naming another scraper with a saved squid quotes that scraper's prices |
| FaultFree.AnsweredCommit | src/lobstr_mcp/execution.py:617-673 | on a saved squid the writes leave exactly the rows, settings and accounts asked for, and the name it had, or refuse because rows are in the way |
| FaultFree.AnsweredRunOnSaved | src/lobstr_mcp/execution.py:617-753 | the whole call does that, starts one run on those rows and settings, and answers with its id and the counts of the rows that fit in a listing; nothing else changes |
| FaultFree.AnsweredRunOnNew | src/lobstr_mcp/execution.py:674-753 | a new squid is made as asked, with one row and a name, and the one run is started on it |
| FaultFree.AnsweredAttach | src/lobstr_mcp/tools/accounts.py:143-181 | a named account of the platform is attached at the end of the list, and nothing else changes |
| FaultFree.AnsweredCreate | src/lobstr_mcp/tools/primitives.py:153-201 | one squid is made that holds the configuration, defaults filled in where their level belongs |
| FaultFree.AnsweredUpdate | src/lobstr_mcp/tools/primitives.py:203-274 | the settings given, under the API's names, are merged into the saved ones, the name becomes the one given, if any, and nothing else changes |
| Primitives.AttachOnlyGrows | src/lobstr_mcp/tools/accounts.py:97-181 | attaching keeps the list as a prefix, appends at most one account of the platform, and writes nothing when it refuses |
| Primitives.UpdateMerges | src/lobstr_mcp/tools/primitives.py:243-274 | if the squid could be read, its settings end as they were or merged, rows and accounts untouched |
| Primitives.SettingsSurviveIff | src/lobstr_mcp/tools/primitives.py:203-269 | a saved setting or toggle is lost or changed unasked exactly when the write got through and either the squid could not be read and the call does not restate them all, or the call puts something else in the place of the saved toggles |
| Primitives.UnreadTogglesAreLost | src/lobstr_mcp/tools/primitives.py:203-209 | changing one of two toggles on a squid that could not be read loses the other |
| SquidNames.UpdateNames | src/lobstr_mcp/tools/primitives.py:256-269 | the name update_scraper leaves: the one given, or else the one it had, its crawler if it had none, its id if it could not be read |
| SquidNames.NameSurvivesIff | src/lobstr_mcp/tools/primitives.py:203-269 | a name nobody asked to change survives exactly when nothing is saved, or the squid was read and has one |
| ConfigLaws.SentUnderWireNames | src/lobstr_mcp/tools/primitives.py:37-43 | each setting, and each toggle, is sent with its value under the API's name, and nothing else is |
| ConfigLaws.DefaultsFilledIn | src/lobstr_mcp/tools/primitives.py:171-177 | each default that is not mentioned is added where its level belongs, a task's nowhere, and nothing given is changed |
| ConfigLaws.MistypedIsRefused | src/lobstr_mcp/tools/primitives.py:162-170 | a setting or toggle of the wrong type is refused by name before anything is created |
| ConfigLaws.WellTypedIsCreated | src/lobstr_mcp/tools/primitives.py:162-170 | and nothing else is refused |
| ConfigLaws.RejectedIsDeleted | src/lobstr_mcp/tools/primitives.py:179-196 | a configuration the API rejects takes the new squid with it, one whose answer was lost does not |
| ConfigLaws.UnnamedAttachesTheFirst | src/lobstr_mcp/tools/accounts.py:125-141 | without a name, an account is attached only to a squid that has none |
| ConfigLaws.ExplainedWasHeard | src/lobstr_mcp/tools/accounts.py:125-160 | a lookup that was not answered is reported as such and not as a missing account |
| Primitives.CreateNamesItsSquid | src/lobstr_mcp/tools/primitives.py:141-201 | no anonymous squid is left behind, one said to be deleted is gone, a refused configuration creates none; a squid is called as asked, or else as the API or by its crawler |
| RunScraperTool.AttachAccount | src/lobstr_mcp/tools/accounts.py:97-181 | the tool as executed does what the specification says |
| RunScraperTool.UpdateScraper | src/lobstr_mcp/tools/primitives.py:243-274 | the tool as executed does what the specification says |
| RunScraperTool.CreateSquid | src/lobstr_mcp/tools/primitives.py:141-201 | the tool as executed does what the specification says |
| RunScraperTool.FillDefaults | src/lobstr_mcp/tools/primitives.py:172-177 | the loop over the defaults puts each where its level belongs, and no task-level one |
| RunScraperTool.WireNamed | src/lobstr_mcp/tools/primitives.py:37-43 | aliases become the API's names, inside `functions` too |
| History.AccountsOnlyGrowForever | src/lobstr_mcp/tools/accounts.py:101-107 | over any history a squid's accounts extend as a prefix, without duplicates, and by accounts of its own crawler's platform if no run names another scraper |
| History.SettingsAreTheFold | src/lobstr_mcp/tools/primitives.py:256-269 | over any history in which update_scraper could read the squid, its settings are the fold of the updates that took effect |
| History.OtherScraperAttachesItsAccount | src/lobstr_mcp/execution.py:448-538 | the premise is needed: a run naming another scraper attaches an account of that scraper's platform |
| IdempotencyHistory.RunsAreApart | src/lobstr_mcp/execution.py:484-495 | in any history two runs under one key are at least the key's lifetime apart, unless the first call answered unknown |
| IdempotencyHistory.AlreadySubmittedIsTrue | src/lobstr_mcp/execution.py:493-495 | `already_submitted` names a run an earlier call started under the same key and that is still remembered |
| IdempotencyHistory.SharedKeyIff | src/lobstr_mcp/execution.py:484-492 | two calls share a key exactly when user and kind agree, and the caller's own key, or the target and the printed input |
| IdempotencyHistory.SharedKeyOnSavedIff | src/lobstr_mcp/execution.py:489-492 | without keys of their own, calls on saved squids share a key exactly when user, squid and printed input agree: confirmation, replacement, account and named scraper are not in it |
| TokenStores.TokenStore.Get | src/lobstr_mcp/auth/token_store.py:32-39 | returns the unexpired link and evicts an expired one |
| TokenStores.RedisTokenStore.Get | src/lobstr_mcp/persistence.py:100-108 | the same over Redis, where the key may have died |
| TokenStores.RedisTokenStore.Put | src/lobstr_mcp/persistence.py:95-98 | stores the link with its lifetime cut to whole seconds |
| TokenStores.MemoryRefreshRegistry.Pop | src/lobstr_mcp/persistence.py:217-218 | returns and removes the entry |
| TokenStores.RedisRefreshRegistry.Pop | src/lobstr_mcp/persistence.py:185-191 | returns and deletes a live entry, leaves a dead one |
| BackendRefinement.RedisRefinesMemory | src/lobstr_mcp/persistence.py:88-111 | over every history of puts, gets and revokes, what Redis returns the process returns, and it withholds a link only in the last second before its expiry |
| BackendRefinement.BackendsAgreeIff | src/lobstr_mcp/persistence.py:62-66 | the two never differ on a link exactly when it has no expiry, less than a second, or a whole number of seconds to live |
| IdempotencyOnRedis.RedisIdempotencyStore.Get | src/lobstr_mcp/persistence.py:125-129 | returns what the key holds while it lives |
| IdempotencyOnRedis.RedisIdempotencyStore.Put | src/lobstr_mcp/persistence.py:131-132 | remembers the run for the lifetime given, or the store's own |
| IdempotencyOnRedis.RedisAnswersAlike | src/lobstr_mcp/persistence.py:114-132 | over every history, with a positive lifetime of whole seconds, every call is answered as with the store in the process and leaves the same world |
| IdempotencyOnRedis.RunsAreApartOnRedis | src/lobstr_mcp/execution.py:484-495 | two runs under one key are at least its lifetime apart with the store on Redis too, unless the first call answered unknown |
| OAuthProvider.EffectiveScopesBound | src/lobstr_mcp/auth/oauth_provider.py:104-120 | scopes stay within the grant if it lists any, within the request if it lists any, lose none that is in both, and are the one list when the other is empty |
| OAuthProvider.RefusedIff | src/lobstr_mcp/auth/oauth_provider.py:114-119 | scopes are refused exactly when both sides list some and share none |
| OAuthProvider.EffectiveScopesStay | src/lobstr_mcp/auth/oauth_provider.py:104-120 | scopes once made effective stay so under rotations that ask for nothing else |
| OAuthLineage.OneHolderPerRequest | src/lobstr_mcp/auth/oauth_provider.py:144-251 | in every state of every run a request owns at most one of a pending request, an unexchanged code and a live refresh token |
| OAuthLineage.UsedAtMostOnce | src/lobstr_mcp/auth/oauth_provider.py:168-251 | a request completes, a code is exchanged and a refresh token rotated at most once, over every run |
| OAuthLineage.FailedRedemptionIsRetryable | src/lobstr_mcp/auth/oauth_provider.py:177-181 | a failed redemption leaves the request, which completes later exactly if it has not expired and shares a scope; a scope refusal uses it up |
| OAuthLineage.GrantIsAConsent | src/lobstr_mcp/auth/oauth_provider.py:177-195 | the identity recorded for a request is that of the one consent that completed it |
| OAuthLineage.AccessIsConsented | src/lobstr_mcp/auth/oauth_provider.py:204-263 | every accepted access token, after any number of rotations, carries a consent's user and API token and no scope it did not grant, if it lists any |
| OAuthLineage.Handshake | src/lobstr_mcp/auth/oauth_provider.py:144-263 | what is asked for in time is given: code, pair, identity and rotated pair, with the scopes both requested and granted |
| OAuthLineage.RevokedForGood | src/lobstr_mcp/auth/oauth_provider.py:265-269 | after a revocation the access token is denied and the refresh token never rotates again, in every continuation (section 2 of RFC 7009) |
| OAuthLifetimes.CompletesIff | src/lobstr_mcp/auth/oauth_provider.py:144-196 | over every run: a redeemed consent yields a code exactly within ten minutes of its request, once, and if a scope is shared |
| OAuthLifetimes.ExchangesIff | src/lobstr_mcp/auth/oauth_provider.py:198-221 | over every run: a code is exchanged exactly within ten minutes of its issue, and once |
| OAuthLifetimes.PendingIsRecent | src/lobstr_mcp/auth/oauth_provider.py:94-97 | what is pending after an authorize request was asked for in the ten minutes before |
| OAuthLifetimes.AcceptedIff | src/lobstr_mcp/auth/oauth_provider.py:204-263 | over every run: an access token is accepted exactly within the hour after its issue, unless it was itself revoked |
| OAuthLifetimes.RotatesIff | src/lobstr_mcp/auth/oauth_provider.py:223-251 | over every run: a refresh token rotates exactly within thirty days of its issue, if it was neither revoked nor presented before and what is asked for can be granted |
| OAuthLifetimes.RevocationLeavesTheOther | src/lobstr_mcp/auth/oauth_provider.py:265-269 | revoking one token of a pair leaves the other good for as long as it would have been |
| OAuthLifetimes.OutlivesIdentityIff | src/lobstr_mcp/auth/oauth_provider.py:204-251 | a pair just issued is accepted, or rotated, after the identity behind it expired, exactly when that expiry falls within the token's own hour, or thirty days |
| OAuthLifetimes.NeverLapses | src/lobstr_mcp/auth/oauth_provider.py:232-251 | from any issued pair, rotations lead to a pair issued as late as one likes on the same identity, expired or not |
| OAuthLineage.RefreshIsConsented | src/lobstr_mcp/auth/oauth_provider.py:204-251 | every refresh token held, after any number of rotations, carries the whole identity of a consent and no scope it did not grant, if it lists any |
| OAuthLineage.NeverWidensIff | src/lobstr_mcp/auth/oauth_provider.py:232-251 | in every state of every run: no rotation of a held refresh token issues a scope the token lacks, whatever is requested, exactly when it has expired or still has all that was granted |
| OAuthLineage.RunThatWidens | src/lobstr_mcp/auth/oauth_provider.py:232-251 | a run of four requests that ends in a rotation issuing a scope the presented token did not have |
| OAuthLineage.CheckedRequestNeverWidens | src/lobstr_mcp/auth/oauth_provider.py:238-240 | no rotation does when the request is checked against the token first |
| OAuthServer.LobstrOAuthProvider.PrunePending | src/lobstr_mcp/auth/oauth_provider.py:94-97 | the loop deletes exactly the expired requests |
| OAuthServer.LobstrOAuthProvider.Authorize | src/lobstr_mcp/auth/oauth_provider.py:144-166 | the object takes the step of the state machine |
| OAuthServer.LobstrOAuthProvider.CompleteConsent | src/lobstr_mcp/auth/oauth_provider.py:168-196 | the object takes the step of the state machine |
| OAuthServer.LobstrOAuthProvider.ExchangeCode | src/lobstr_mcp/auth/oauth_provider.py:198-221 | loading and exchanging a code is one step of the state machine |
| OAuthServer.LobstrOAuthProvider.RotateRefresh | src/lobstr_mcp/auth/oauth_provider.py:223-251 | loading and rotating a refresh token is one step of the state machine |
| OAuthServer.LobstrOAuthProvider.LoadAccess | src/lobstr_mcp/auth/oauth_provider.py:253-263 | the object takes the step of the state machine |
| OAuthServer.LobstrOAuthProvider.RevokeToken | src/lobstr_mcp/auth/oauth_provider.py:265-269 | the token is gone from both stores |
| OAuthBackends.TokensAreSealed | src/lobstr_mcp/persistence.py:69-98 | over every run, no API token is in Redis in the clear |
| OAuthBackends.RedisServerRefines | src/lobstr_mcp/persistence.py:156-191 | over every run, what a server on Redis accepts one in the process accepts with the same reply, even after they have drifted apart |
| OAuthBackends.FirstDifferenceIsAtExpiry | src/lobstr_mcp/persistence.py:62-66 | the first reply on which they differ is to a token within a second of its expiry |
| WaitForRun.Wait | src/lobstr_mcp/execution.py:874-903 | terminates; sleeps at most the clamped timeout; polls at most once more than half of it, rounded up; the time is declared up exactly when the last poll was neither done nor an error |
| WaitForRun.ClampedIs | src/lobstr_mcp/execution.py:882 | a timeout is taken as it is between one second and fifty, and as the nearer of them otherwise |
| Ranking.Bm25Scores | src/lobstr_mcp/tools/scrapers.py:91-121 | the loops over counters and sums compute the scores |
| Ranking.AverageIs | src/lobstr_mcp/tools/scrapers.py:91-121 | the average length is all words divided by the documents |
| Ranking.DocFreqIs | src/lobstr_mcp/tools/scrapers.py:91-121 | a term counts for the documents that contain it |
| Ranking.PositiveIffShares | src/lobstr_mcp/tools/scrapers.py:111-119 | a score is positive exactly when the document contains a query term |
| Ranking.WeightIs | src/lobstr_mcp/tools/scrapers.py:91-121 | the Okapi formula with its constants |
| Ranking.RarerScoresMore | src/lobstr_mcp/tools/scrapers.py:91-121 | of two terms a document holds as often, the rarer one scores strictly more |
| Ranking.DenserScoresMore | src/lobstr_mcp/tools/scrapers.py:91-121 | a term scores strictly more where it occurs more often, and in a shorter document |
| Ranking.BeforeIs | src/lobstr_mcp/tools/scrapers.py:159-164 | a better score comes first, then more runs, then the name, or the id of a crawler without one |
| Ranking.TextLessIff | src/lobstr_mcp/tools/scrapers.py:159-164 | names are in lexicographic order |
| Ranking.SortedInOrder | src/lobstr_mcp/tools/scrapers.py:159-164 | the ranking is in order of score, runs and name, ties in catalogue order |
| Ranking.SimilarMatches | src/lobstr_mcp/tools/scrapers.py:124-180 | the loop with its two breaks returns exactly the best five entries that share a term, each with its matched and missing terms, together all of the query |

## Left out

- Transport, the SDK, tool registration, routes, configuration: wiring. In place of what goes over the wire stands
  the script of outcomes; how a transport error is classified as not sent or unknown is taken from it.
- Interference: the dashboard, other clients and concurrent consent callbacks act between calls only, and a call's requests
  meet the state it left. The code claims no atomicity there.
- What the API calls a squid that is created without a name: any name, possibly none, that a world fixes.
- Slugs and search of scrapers by name: `scraper` is a crawler's id.
- The listing of accounts is complete. That of a squid's rows has a limit, a number that a world fixes; its pages are one
  request, answered or not as a whole.
- `concurrency`, `auto_verify_emails`, account health notes, credit warnings, and all wording: only structured fields.
- Identifiers of squids, runs and tokens are natural numbers that are never handed out twice; random strings are taken to be fresh.
- Credits, rates, scores and times are real numbers; the rounding of floats is not part of this model.
- `json.dumps` is any printer without line breaks that starts an array with a bracket and determines it; the text of a
  non-integral float and non-finite numbers are not part of this model; digits and
  blanks are those of Unicode 14.
- Fernet and SHA-256: decrypting gives back what was encrypted, and the digest is injective where keys are compared.
- Redis keeps the four kinds of keys apart by prefix; they are separate tables here, on the clock of the server.
- Client registration, PKCE, and the check that a code or token is presented by its own client are done by the SDK in front of the server.
- A `functions` value in `config` that is not a dictionary, and a configuration whose defaults then cannot be nested.
- Text of aliases' descriptions, descriptions and examples of properties.
- Splitting a query and a crawler's texts into words; they come as word lists.
- `estimate_run`, `add_tasks`, results, run lists, abort, `check_credits`, `whoami`: they read, or pass one request through.
- RunScraperPrice.PriceBound: stated on real arithmetic and for nonnegative rates and ratios; with a negative rate it fails (Pricing.NegativeRateBreaksTheBound).
- OAuthBackends.FirstDifferenceIsAtExpiry: says nothing of replies after the first difference beyond RedisServerRefines, because a rotation
  one backend refuses leaves the two with different tokens.
- IdempotencyOnRedis.RedisAnswersAlike: covers positive lifetimes; Redis refuses a lifetime of zero, which the process takes for ever.
