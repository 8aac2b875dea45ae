/** What `tasks_lost = false` is worth: for each call, exactly when it means that no row is gone. */
module NothingLost {
  import opened Wrappers
  import opened Errors
  import opened Accounts
  import opened Idempotency
  import SchemaTranslator
  import opened RemoteApi
  import opened RunFlow
  import opened RunScraperSafety
  import opened RunScraperTheorems

  /** If the call reports under the script `s` that no row is lost, all of them are still there. */
  ghost predicate LossTold(w: World, memory: Memory, config: Config, call: Call, id: nat, s: seq<Fault>)
    requires id in w.squids
  {
    var (r, w', m') := RunScraper(w.(script := s), memory, config, call);
    r.Failed? && r.failure.tasksLost == Some(false) ==> id in w'.squids && Keeps(w.squids[id].tasks, w'.squids[id].tasks)
  }

  /** A row the client can put back: a listing shows it, with params it can read. */
  predicate Restorable(w: World, id: nat, t: SavedTask)
    requires id in w.squids
  {
    Readable(t) && t in Listed(w.squids[id].tasks, w.listable)
  }

  /** The first reads are answered, all of them or all but that of `/params`, whose failure is tolerated. */
  function Reads(paramsRead: bool): seq<Fault> {
    [Answered, Answered, if paramsRead then Answered else NotSent]
  }

  const THREE_MORE: seq<Fault> := [Answered, Answered, Answered]

  /** The call gets as far as its writes when every other read is answered. */
  predicate GoesAhead(w: World, memory: Memory, config: Config, call: Call, paramsRead: bool) {
    var (load, w1) := LoadAll(w.(script := Reads(paramsRead) + THREE_MORE), call);
    && load.LoadDone? && InputErrors(call, load.loaded) == []
    && Recall(memory, KeyOf(config, call, load.loaded), call.now).None?
    && Prepare(w1, config, call, load.loaded).0.Quoted?
  }

  // ---- one script against another ----

  /** Which of the first reads matters: what is loaded depends on nothing later. */
  lemma LoadsUnder(w: World, call: Call, p: bool, rest: seq<Fault>, rest': seq<Fault>)
    requires call.squidId.Some?
    ensures LoadAll(w.(script := Reads(p) + rest), call).0 == LoadAll(w.(script := Reads(p) + rest'), call).0
    ensures LoadAll(w.(script := Reads(p) + rest), call).0.LoadDone? ==>
              LoadAll(w.(script := Reads(p) + rest), call).1 == w.(script := rest)
  {
    hide SchemaTranslator.Translate;
    var (s, s') := (Reads(p) + rest, Reads(p) + rest');
    assert s[1..][1..][1..] == rest && s'[1..][1..][1..] == rest';
    assert s[0] == s'[0] && s[1..][0] == s'[1..][0] && s[1..][1..][0] == s'[1..][1..][0];
  }

  /** A call that gets its reads gets them under a script of this form. */
  lemma LoadsAlike(w: World, call: Call, s: seq<Fault>, rest: seq<Fault>) returns (p: bool)
    requires call.squidId.Some? && LoadAll(w.(script := s), call).0.LoadDone?
    ensures LoadAll(w.(script := Reads(p) + rest), call) == (LoadAll(w.(script := s), call).0, w.(script := rest))
  {
    p := Next(Tick(Tick(w.(script := s)))).Answered?;
    hide SchemaTranslator.Translate;
    assert (Reads(p) + rest)[1..][1..][1..] == rest;
  }

  /** Whether the accounts are read before the rows are. */
  predicate AsksAccounts(call: Call, l: Loaded) {
    l.crawler.accountType.Some? &&
    (call.accountId.Some? || l.existing.None? || AccountIds(Shown(l.existing.value.accounts, l.existing.value.shape)) == Some([]))
  }

  /** What is read before the writes, everything answered. */
  function MoreReads(call: Call, l: Loaded): seq<Fault> {
    if AsksAccounts(call, l) then [Answered, Answered, Answered] else [Answered, Answered]
  }

  lemma ChoosesAlike(w: World, call: Call, l: Loaded, rest: seq<Fault>)
    requires ChooseAccounts(w, call, l).0.Attach?
    ensures ChooseAccounts(w.(script := (if AsksAccounts(call, l) then [Answered] else []) + rest), call, l)
         == (ChooseAccounts(w, call, l).0, w.(script := rest))
  {
    assert [Answered] + rest != [] && ([Answered] + rest)[1..] == rest && [] + rest == rest;
  }

  lemma QuotesAlike(w: World, config: Config, call: Call, l: Loaded, accounts: Option<seq<string>>, rest: seq<Fault>)
    requires call.squidId.Some? && call.squidId.value in w.squids
    requires Next(w).Answered? && QuoteRun(w, config, call, l, accounts).0.Quoted?
    ensures QuoteRun(w.(script := [Answered, Answered] + rest), config, call, l, accounts)
         == (QuoteRun(w, config, call, l, accounts).0, w.(script := rest))
  {
    var s := [Answered, Answered] + rest;
    assert s[1..][1..] == rest;
  }

  lemma PreparesAlike(w: World, config: Config, call: Call, l: Loaded, rest: seq<Fault>)
    requires LoadedFrom(w, call, l) && call.squidId.Some?
    requires Prepare(w, config, call, l).0.Quoted? && RowsListed(w, call, l)
    ensures Prepare(w.(script := MoreReads(call, l) + rest), config, call, l) == (Prepare(w, config, call, l).0, w.(script := rest))
  {
    ChoiceIsQuiet(w, call, l);
    var (choice, w1) := ChooseAccounts(w, call, l);
    ChoosesAlike(w, call, l, [Answered, Answered] + rest);
    QuotesAlike(w1, config, call, l, choice.accounts, rest);
    hide QuoteRun, ChooseAccounts, AsksAccounts, LoadedFrom;
    assert MoreReads(call, l) + rest == (if AsksAccounts(call, l) then [Answered] else []) + ([Answered, Answered] + rest);
    assert w1.(script := [Answered, Answered] + rest) == w.(script := [Answered, Answered] + rest);
  }

  lemma ListedWhenAnswered(w: World, config: Config, call: Call, l: Loaded)
    requires w.script == THREE_MORE && Prepare(w, config, call, l).0.Quoted?
    ensures RowsListed(w, call, l)
  {
    hide QuoteRun;
  }

  lemma ListedAgain(w: World, call: Call, l: Loaded, rest: seq<Fault>)
    requires ChooseAccounts(w, call, l).0.Attach?
    ensures RowsListed(w.(script := MoreReads(call, l) + rest), call, l)
  {
    ChoosesAlike(w, call, l, [Answered, Answered] + rest);
    hide ChooseAccounts, AsksAccounts;
    assert MoreReads(call, l) + rest == (if AsksAccounts(call, l) then [Answered] else []) + ([Answered, Answered] + rest);
  }

  lemma QuotedChose(w: World, config: Config, call: Call, l: Loaded)
    requires Prepare(w, config, call, l).0.Quoted?
    ensures ChooseAccounts(w, call, l).0.Attach?
  {
    hide ChooseAccounts, QuoteRun;
  }

  // ---- the loss ----

  lemma {:induction false} ReadableRowsAre(tasks: seq<SavedTask>, row: Row)
    requires row in ReadableRows(tasks)
    ensures row != map[] && SavedTask(Some(row)) in tasks
  {
    var init, last := tasks[..|tasks| - 1], tasks[|tasks| - 1];
    assert tasks == init + [last];
    if row in ReadableRows(init) {
      ReadableRowsAre(init, row);
    }
  }

  const LOSS: seq<Fault> := [Answered, LostApplied, Answered]

  /** The emptying went through but its answer was lost, and the rows that were listed were put back: not
      among them the row `t`. */
  lemma NotPutBack(w: World, id: nat, u: Update, row: Row, snapshot: Snapshot, t: SavedTask)
    requires id in w.squids && t in w.squids[id].tasks && !Restorable(w, id, t)
    requires w.script == LOSS
    requires SnapshotOf(snapshot, w.squids[id].tasks, w.listable) && snapshot.Rows?
    ensures var (f, w') := ReplaceInput(w, id, u, row, snapshot);
      f.Some? && f.value.tasksLost == Some(false) && id in w'.squids && t !in w'.squids[id].tasks
  {
    if t in AddRows([], snapshot.rows) {
      AddRowsOnly([], snapshot.rows, t);
      ReadableRowsAre(Listed(w.squids[id].tasks, w.listable), t.params.value);
    }
    assert w.script[1..] == [LostApplied, Answered] && w.script[1..][1..] == [Answered];
  }

  /** The rewrite is all that is left of a call that got its plan. */
  lemma PlanDecides(w: World, memory: Memory, config: Config, call: Call, l: Loaded, w1: World, w2: World, id: nat)
    requires call.squidId == Some(id) && Replaces(call) && LoadAll(w, call) == (LoadDone(l), w1)
    requires InputErrors(call, l) == [] && Recall(memory, KeyOf(config, call, l), call.now).None?
    requires Prepare(w1, config, call, l).0.Quoted? && Prepare(w1, config, call, l).1 == w2
    requires var plan := Prepare(w1, config, call, l).0.plan;
      plan.squid == Some(id) && Replacing(plan) && ReplaceInput(w2, id, plan.update, plan.row, plan.snapshot).0.Some?
    ensures var plan := Prepare(w1, config, call, l).0.plan;
      var (f, w') := ReplaceInput(w2, id, plan.update, plan.row, plan.snapshot);
      RunScraper(w, memory, config, call).0 == Failed(f.value) && RunScraper(w, memory, config, call).1 == w'
  {
    hide LoadAll, InputErrors, Prepare, KeyOf, ReplaceInput, Recall, AfterRecall;
  }

  lemma LostAfterQuote(w: World, config: Config, call: Call, l: Loaded, id: nat, t: SavedTask, w2: World)
    requires LoadedFrom(w, call, l) && call.squidId == Some(id) && Replaces(call)
    requires Prepare(w, config, call, l).0.Quoted? && Prepare(w, config, call, l).1 == w2 && RowsListed(w, call, l)
    requires w2 == w.(script := LOSS)
    requires t in w.squids[id].tasks && !Restorable(w, id, t)
    ensures var plan := Prepare(w, config, call, l).0.plan;
      var (f, w') := ReplaceInput(w2, id, plan.update, plan.row, plan.snapshot);
      && plan.squid == Some(id) && Replacing(plan)
      && f.Some? && f.value.tasksLost == Some(false) && id in w'.squids && t !in w'.squids[id].tasks
  {
    PlanIsSound(w, config, call, l);
    var plan := Prepare(w, config, call, l).0.plan;
    hide Prepare, ReplaceInput, RowsListed;
    NotPutBack(w2, id, plan.update, plan.row, plan.snapshot, t);
  }

  /** A script under which the call goes ahead and loses the row. */
  lemma LosesRow(w: World, memory: Memory, config: Config, call: Call, id: nat, t: SavedTask, paramsRead: bool) returns (s: seq<Fault>)
    requires call.squidId == Some(id) && id in w.squids && t in w.squids[id].tasks && !Restorable(w, id, t)
    requires Replaces(call) && GoesAhead(w, memory, config, call, paramsRead)
    ensures !LossTold(w, memory, config, call, id, s)
  {
    hide LoadAll, InputErrors, KeyOf, Prepare, MoreReads, RunScraper, ReplaceInput, RowsListed, Replaces, Restorable, LoadedFrom, Recall;
    var l := LoadAll(w.(script := Reads(paramsRead) + THREE_MORE), call).0.loaded;
    var rest := MoreReads(call, l) + LOSS;
    s := Reads(paramsRead) + rest;
    LoadsUnder(w, call, paramsRead, THREE_MORE, rest);
    LoadsUnder(w, call, paramsRead, rest, THREE_MORE);
    var w0, w1 := w.(script := THREE_MORE), w.(script := rest);
    LoadsFrom(w.(script := s), w0, w1, call, l);
    LosesAfterReads(w, memory, config, call, l, w0, w1, id, t, s);
  }

  /** What was loaded is the same whatever the script. */
  lemma LoadsFrom(w: World, w0: World, w1: World, call: Call, l: Loaded)
    requires LoadAll(w, call).0 == LoadDone(l) && w0 == w.(script := w0.script) && w1 == w.(script := w1.script)
    ensures LoadedFrom(w0, call, l) && LoadedFrom(w1, call, l)
  {
    LoadIsQuiet(w, call);
    hide LoadAll;
  }

  lemma LosesAfterReads(w: World, memory: Memory, config: Config, call: Call, l: Loaded, w0: World, w1: World,
                        id: nat, t: SavedTask, s: seq<Fault>)
    requires call.squidId == Some(id) && id in w.squids && t in w.squids[id].tasks && !Restorable(w, id, t) && Replaces(call)
    requires w0 == w.(script := THREE_MORE) && w1 == w.(script := MoreReads(call, l) + LOSS)
    requires LoadedFrom(w0, call, l) && LoadedFrom(w1, call, l) && LoadAll(w.(script := s), call) == (LoadDone(l), w1)
    requires InputErrors(call, l) == [] && Recall(memory, KeyOf(config, call, l), call.now).None?
    requires Prepare(w0, config, call, l).0.Quoted?
    ensures !LossTold(w, memory, config, call, id, s)
  {
    hide LoadAll, InputErrors, KeyOf, Prepare, MoreReads, RunScraper, ReplaceInput, RowsListed, Replaces, LoadedFrom, Recall;
    ListedWhenAnswered(w0, config, call, l);
    PreparesAlike(w0, config, call, l, LOSS);
    QuotedChose(w0, config, call, l);
    ListedAgain(w0, call, l, LOSS);
    assert w0.(script := MoreReads(call, l) + LOSS) == w1 && w0.(script := LOSS) == w.(script := LOSS);
    LostAfterQuote(w1, config, call, l, id, t, w.(script := LOSS));
    PlanDecides(w.(script := s), memory, config, call, l, w1, w.(script := LOSS), id);
  }

  // ---- the report ----

  /** A call that listed the rows and went ahead under any script goes ahead when all is answered. */
  lemma WouldGoAhead(w: World, memory: Memory, config: Config, call: Call, l: Loaded, s: seq<Fault>) returns (p: bool)
    requires var w1 := LoadAll(w.(script := s), call).1;
      && call.squidId.Some? && LoadAll(w.(script := s), call).0 == LoadDone(l) && LoadedFrom(w1, call, l)
      && Prepare(w1, config, call, l).0.Quoted? && RowsListed(w1, call, l) && w1 == w.(script := w1.script)
    requires InputErrors(call, l) == [] && Recall(memory, KeyOf(config, call, l), call.now).None?
    ensures GoesAhead(w, memory, config, call, p)
  {
    hide LoadAll, InputErrors, KeyOf, Prepare, RowsListed, LoadedFrom, Recall, AsksAccounts;
    p := LoadsAlike(w, call, s, THREE_MORE);
    var w1 := LoadAll(w.(script := s), call).1;
    var rest: seq<Fault> := if AsksAccounts(call, l) then [] else [Answered];
    PreparesAlike(w1, config, call, l, rest);
    assert MoreReads(call, l) + rest == THREE_MORE;
    assert w1.(script := THREE_MORE) == w.(script := THREE_MORE);
  }

  lemma ToldTruly(w: World, memory: Memory, config: Config, call: Call, id: nat, s: seq<Fault>)
    requires Valid(w) && call.squidId == Some(id) && id in w.squids
    requires (forall t | t in w.squids[id].tasks :: Restorable(w, id, t)) || !Replaces(call)
             || forall p: bool :: !GoesAhead(w, memory, config, call, p)
    ensures LossTold(w, memory, config, call, id, s)
  {
    hide RunScraper, LoadAll, InputErrors, KeyOf, Prepare, RunNow, RowsListed, GoesAhead, Replaces, LoadedFrom, Recall;
    var w0 := w.(script := s);
    var l := CallFacts(w0, memory, config, call);
    if l.Some? {
      var w1 := LoadAll(w0, call).1;
      RunNowTells(w1, config, call, l.value, id);
      if RowsListed(w1, call, l.value) && exists t :: t in w.squids[id].tasks && !Restorable(w, id, t) {
        var p := WouldGoAhead(w, memory, config, call, l.value, s);
      }
    }
  }

  /** The report covers the rows that were listed and could be read: for each call on a saved squid,
      `tasks_lost = false` means that no row is gone, whatever becomes of its requests, if and only if every
      saved row is readable and fits in a listing - or the call replaces no rows, or it does not get as far
      as its writes anyway. */
  lemma NothingLostIff(w: World, memory: Memory, config: Config, call: Call, id: nat)
    requires Valid(w) && call.squidId == Some(id) && id in w.squids
    ensures (forall s: seq<Fault> :: LossTold(w, memory, config, call, id, s))
       <==> (forall t | t in w.squids[id].tasks :: Restorable(w, id, t)) || !Replaces(call)
            || forall p: bool :: !GoesAhead(w, memory, config, call, p)
  {
    hide LossTold, Replaces, GoesAhead, Restorable;
    if (forall t | t in w.squids[id].tasks :: Restorable(w, id, t)) || !Replaces(call)
       || forall p: bool :: !GoesAhead(w, memory, config, call, p) {
      forall s: seq<Fault> ensures LossTold(w, memory, config, call, id, s) {
        ToldTruly(w, memory, config, call, id, s);
      }
    } else {
      var t :| t in w.squids[id].tasks && !Restorable(w, id, t);
      var p: bool :| GoesAhead(w, memory, config, call, p);
      var s := LosesRow(w, memory, config, call, id, t, p);
    }
  }
}
