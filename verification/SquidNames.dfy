/** What becomes of the names of squids: no call takes a name away, whatever the script. */
module SquidNames {
  import opened Wrappers
  import Text
  import opened Errors
  import opened Idempotency
  import opened SchemaTranslator
  import opened RemoteApi
  import opened RunFlow
  import opened RunScraperSafety
  import opened RunScraperTheorems
  import opened Primitives

  /** What a squid of the crawler is called for want of a name: after the crawler, or by its id. */
  function Title(w: World, crawler: string): string {
    if crawler in w.crawlers && w.crawlers[crawler].name != "" then w.crawlers[crawler].name else crawler
  }

  /** A squid that has a name keeps it; one without may get a title. */
  predicate NameKept(before: string, after: string, title: string) {
    after == before || (before == "" && after == title)
  }

  lemma SavedName(w: World, config: Config, call: Call, l: Loaded, id: nat)
    requires Valid(w) && LoadedFrom(w, call, l) && call.squidId == Some(id) && Prepare(w, config, call, l).0.Quoted?
    ensures var w' := RunNow(w, config, call, l).1;
      && OnlySquidAndRuns(w, w', id)
      && NameKept(w.squids[id].name, w'.squids[id].name, Title(w, call.scraper.GetOr(w.squids[id].crawler)))
  {
    RunNowFacts(w, config, call, l);
    PlanIsSound(w, config, call, l);
    hide RunNow, Prepare;
  }

  lemma NewSquidName(w: World, config: Config, call: Call, l: Loaded)
    requires Valid(w) && LoadedFrom(w, call, l) && call.squidId.None? && Prepare(w, config, call, l).0.Quoted?
    ensures var w' := RunNow(w, config, call, l).1;
      && OnlyNewSquid(w, w', w.nextId)
      && (w.nextId in w'.squids ==> NameKept(w.autoName, w'.squids[w.nextId].name, Title(w, l.scraper)))
  {
    RunNowFacts(w, config, call, l);
    PlanIsSound(w, config, call, l);
    hide RunNow, Prepare;
  }

  /** run_scraper renames nothing: whatever the script, every squid that has a name keeps it; the one the call
      is about gets its crawler's name, or the crawler's id, only if it had none; and a new one is called as
      the API calls it, or in that way. */
  lemma RunKeepsNames(w: World, memory: Memory, config: Config, call: Call, id: nat)
    requires Valid(w)
    ensures var w' := RunScraper(w, memory, config, call).1;
      && (id in w.squids ==>
            && id in w'.squids
            && NameKept(w.squids[id].name, w'.squids[id].name, Title(w, call.scraper.GetOr(w.squids[id].crawler)))
            && (call.squidId != Some(id) ==> w'.squids[id].name == w.squids[id].name))
      && (id !in w.squids && id in w'.squids ==>
            id == w.nextId && call.scraper.Some? && NameKept(w.autoName, w'.squids[id].name, Title(w, call.scraper.value)))
  {
    hide RunScraper, RunNow, Prepare, InputErrors, KeyOf, LoadAll, Title, NameKept;
    var l := CallFacts(w, memory, config, call);
    if l.Some? {
      var w1, w' := LoadAll(w, call).1, RunScraper(w, memory, config, call).1;
      SameTitle(w, w1, call.scraper.GetOr(""));
      if call.squidId.Some? {
        SavedName(w1, config, call, l.value, call.squidId.value);
        SameTitle(w, w1, call.scraper.GetOr(w.squids[call.squidId.value].crawler));
      } else {
        NewSquidName(w1, config, call, l.value);
        assert id != w.nextId && id in w.squids ==> id in (w'.squids - {w.nextId});
        assert id != w.nextId && id in w'.squids ==> id in (w'.squids - {w.nextId});
      }
    }
    SameName(w, id, call);
  }

  lemma SameTitle(w: World, w1: World, crawler: string)
    requires Unchanged(w, w1)
    ensures Title(w, crawler) == Title(w1, crawler)
  {
  }

  lemma SameName(w: World, id: nat, call: Call)
    ensures id in w.squids ==> NameKept(w.squids[id].name, w.squids[id].name, Title(w, call.scraper.GetOr(w.squids[id].crawler)))
  {
  }

  /** The name update_scraper leaves, whatever becomes of its requests. */
  lemma UpdateNames(w: World, id: nat, name: Option<string>, cfg: Settled)
    requires id in w.squids
    ensures var s, w' := w.squids[id], UpdateScraper(w, id, name, cfg).1;
      id in w'.squids && w'.squids[id].name ==
        if (name.None? && Empty(cfg)) || !Applied(Next(SquidAndWireNames(w, id).2)) then s.name
        else if name.Some? then name.value
        else if !Next(w).Answered? then Text.OfNat(id)
        else if s.name != "" then s.name
        else if s.crawler != "" then s.crawler
        else Text.OfNat(id)
  {
    if name.Some? || !Empty(cfg) {
      SquidReadIsQuiet(w, id);
      var (wireNames, found, w1) := SquidAndWireNames(w, id);
      hide SquidAndWireNames, ApplyWireNames;
      UpdateFacts(w1, id, UpdateBody(id, name, cfg, wireNames, found));
    }
  }

  /** Updating settings leaves the name alone exactly when nothing is saved, or the squid was read and has a
      name; on one that could not be read the name is replaced by the id. */
  lemma NameSurvivesIff(w: World, id: nat, cfg: Settled)
    requires id in w.squids
    ensures var w' := UpdateScraper(w, id, None, cfg).1;
      id in w'.squids &&
      (w'.squids[id].name == w.squids[id].name <==>
         || Empty(cfg) || !Applied(Next(SquidAndWireNames(w, id).2))
         || if Next(w).Answered? then w.squids[id].name != "" else w.squids[id].name == Text.OfNat(id))
  {
    UpdateNames(w, id, None, cfg);
    hide UpdateScraper, SquidAndWireNames;
  }
}
