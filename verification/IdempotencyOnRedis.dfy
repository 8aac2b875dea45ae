/** The idempotency store on Redis: over every history the tools answer as they do with the store in the
    process, so it prevents double payment just as well. */
module IdempotencyOnRedis {
  import opened Wrappers
  import opened Errors
  import opened Idempotency
  import opened RedisCells
  import opened RemoteApi
  import opened RunFlow
  import RunScraperSafety
  import opened Primitives
  import opened History
  import opened IdempotencyHistory

  type RunCells = Cells<string, nat>

  /** A lifetime that is absent is the store's own; both are whole seconds. */
  function RedisRemember(cells: RunCells, key: string, run: nat, ttl: Option<nat>, defaultTtl: nat, now: real): RunCells {
    RedisSet(cells, key, run, Some(ttl.GetOr(defaultTtl)), now)
  }

  class RedisIdempotencyStore {
    const redis: Redis<string, nat>
    const ttl: nat

    constructor (redis: Redis<string, nat>, ttl: nat)
      ensures this.redis == redis && this.ttl == ttl
    {
      this.redis, this.ttl := redis, ttl;
    }

    method Get(key: string, now: real) returns (run: Option<nat>)
      ensures run == RedisGet(redis.cells, key, now)
    {
      run := redis.Get(key, now);
    }

    method Put(key: string, run: nat, ttl: Option<nat>, now: real)
      modifies redis
      ensures redis.cells == RedisRemember(old(redis.cells), key, run, ttl, this.ttl, now)
    {
      redis.Set(key, run, Some(ttl.GetOr(this.ttl)), now);
    }
  }

  // ---- run_scraper with the store on Redis ----

  function SecondsOf(call: Call): Option<nat> {
    if call.idempotencyKey.Some? then None else Some(120)
  }

  function RunOnRedis(w: World, cells: RunCells, config: Config, ttl: nat, call: Call): (Response, World, RunCells) {
    var (load, w1) := LoadAll(w, call);
    if load.LoadStopped? then (load.response, w1, cells)
    else
      var l := load.loaded;
      var errors := InputErrors(call, l);
      if errors != [] then (ValidationFailed(errors), w1, cells)
      else
        var key := KeyOf(config, call, l);
        var known := RedisGet(cells, key, call.now);
        if known.Some? then (AlreadySubmitted(known.value), w1, cells)
        else
          var (r, w2) := RunNow(w1, config, call, l);
          (r, w2, if r.Started? then RedisRemember(cells, key, r.run, SecondsOf(call), ttl, call.doneAt) else cells)
  }

  datatype RedisState = RedisState(world: World, cells: RunCells)

  /** Only `run_scraper` uses the store. */
  function RedisStep(s: RedisState, config: Config, ttl: nat, c: ToolCall): (Answer, RedisState) {
    if c.RunCall? then
      var (r, w, cells) := RunOnRedis(s.world, s.cells, config, ttl, c.call);
      (RunAnswer(r), RedisState(w, cells))
    else
      var (a, s') := Step(State(s.world, map[]), config, c);
      (a, RedisState(s'.world, s.cells))
  }

  function RedisStateAt(s: RedisState, config: Config, ttl: nat, calls: seq<ToolCall>, i: nat): RedisState
    requires i <= |calls|
  {
    if i == 0 then s else RedisStep(RedisStateAt(s, config, ttl, calls, i - 1), config, ttl, calls[i - 1]).1
  }

  function RedisAnswerAt(s: RedisState, config: Config, ttl: nat, calls: seq<ToolCall>, i: nat): Answer
    requires i < |calls|
  {
    RedisStep(RedisStateAt(s, config, ttl, calls, i), config, ttl, calls[i]).0
  }

  // ---- the two stores remember alike ----

  ghost predicate SameAt(m: Memory, cells: RunCells, key: string, now: real) {
    forall t: real | now <= t :: Recall(m, key, t) == RedisGet(cells, key, t)
  }

  /** From `now` on, every key recalls the same. */
  ghost predicate Same(m: Memory, cells: RunCells, now: real) {
    forall key: string :: SameAt(m, cells, key, now)
  }

  lemma LaterSame(m: Memory, cells: RunCells, now: real, later: real)
    requires Same(m, cells, now) && now <= later
    ensures Same(m, cells, later)
  {
    forall key: string ensures SameAt(m, cells, key, later) {
      assert SameAt(m, cells, key, now);
    }
  }

  /** Redis forgets an expired key by itself; the process drops it when it is read. */
  lemma RecallSame(m: Memory, cells: RunCells, key: string, now: real)
    requires Same(m, cells, now)
    ensures Recall(m, key, now) == RedisGet(cells, key, now) && Same(AfterRecall(m, key, now), cells, now)
  {
    assert SameAt(m, cells, key, now);
    forall k: string ensures SameAt(AfterRecall(m, key, now), cells, k, now) {
      assert SameAt(m, cells, k, now);
    }
  }

  lemma RememberSame(m: Memory, cells: RunCells, key: string, run: nat, call: Call, ttl: nat, now: real)
    requires Same(m, cells, now) && ttl > 0
    ensures Same(Remember(m, key, run, TtlOf(call), ttl as real, now), RedisRemember(cells, key, run, SecondsOf(call), ttl, now), now)
  {
    var m', cells' := Remember(m, key, run, TtlOf(call), ttl as real, now), RedisRemember(cells, key, run, SecondsOf(call), ttl, now);
    forall k: string ensures SameAt(m', cells', k, now) {
      assert SameAt(m, cells, k, now);
      forall t: real | now <= t ensures Recall(m', k, t) == RedisGet(cells', k, t) {
        assert Recall(m, k, t) == RedisGet(cells, k, t);
      }
    }
  }

  lemma RunSame(w: World, m: Memory, cells: RunCells, config: Config, ttl: nat, call: Call)
    requires Same(m, cells, call.now) && call.now <= call.doneAt && ttl > 0 && config.defaultTtl == ttl as real
    ensures var (r, w', m') := RunScraper(w, m, config, call);
      var (r', w'', cells') := RunOnRedis(w, cells, config, ttl, call);
      r == r' && w' == w'' && Same(m', cells', call.doneAt)
  {
    hide LoadAll, InputErrors, KeyOf, RunNow, Same, Recall, AfterRecall, Remember, RedisRemember, RedisGet;
    LaterSame(m, cells, call.now, call.doneAt);
    var (load, w1) := LoadAll(w, call);
    if load.LoadDone? && InputErrors(call, load.loaded) == [] {
      var key := KeyOf(config, call, load.loaded);
      RecallSame(m, cells, key, call.now);
      var m' := AfterRecall(m, key, call.now);
      LaterSame(m', cells, call.now, call.doneAt);
      var r := RunNow(w1, config, call, load.loaded).0;
      if r.Started? {
        RememberSame(m', cells, key, r.run, call, ttl, call.doneAt);
      }
    }
  }

  lemma OthersIgnoreMemory(s: State, config: Config, c: ToolCall)
    requires !c.RunCall?
    ensures var (a, s') := Step(s, config, c);
      var (b, t') := Step(State(s.world, map[]), config, c);
      a == b && s'.world == t'.world && s'.memory == s.memory
  {
    hide AttachAccount, UpdateScraper, CreateSquidTool, RunScraper;
  }

  lemma StepSame(s: State, r: RedisState, config: Config, ttl: nat, c: ToolCall, now: real, later: real)
    requires r.world == s.world && Same(s.memory, r.cells, now) && ttl > 0 && config.defaultTtl == ttl as real && now <= later
    requires c.RunCall? ==> now <= c.call.now <= c.call.doneAt <= later
    ensures var (a, s') := Step(s, config, c);
      var (b, r') := RedisStep(r, config, ttl, c);
      a == b && s'.world == r'.world && Same(s'.memory, r'.cells, later)
  {
    if c.RunCall? {
      hide RunScraper, RunOnRedis, Same;
      LaterSame(s.memory, r.cells, now, c.call.now);
      RunSame(s.world, s.memory, r.cells, config, ttl, c.call);
      LaterSame(Step(s, config, c).1.memory, RedisStep(r, config, ttl, c).1.cells, c.call.doneAt, later);
    } else {
      hide Step, Same;
      OthersIgnoreMemory(s, config, c);
      LaterSame(s.memory, r.cells, now, later);
    }
  }

  /** A time no call before `i` is done after. */
  predicate DoneBy(calls: seq<ToolCall>, i: nat, now: real)
    requires i <= |calls|
  {
    forall j | 0 <= j < i && calls[j].RunCall? :: calls[j].call.doneAt <= now
  }

  lemma {:induction false} SameThroughout(s: State, r: RedisState, config: Config, ttl: nat, calls: seq<ToolCall>, i: nat, now: real)
    requires s.memory == map[] && r == RedisState(s.world, map[]) && ttl > 0 && config.defaultTtl == ttl as real
    requires i <= |calls| && Ordered(calls) && DoneBy(calls, i, now)
    ensures StateAt(s, config, calls, i).world == RedisStateAt(r, config, ttl, calls, i).world
    ensures Same(StateAt(s, config, calls, i).memory, RedisStateAt(r, config, ttl, calls, i).cells, now)
  {
    hide Step, RedisStep;
    if i > 0 {
      hide Same;
      var c := calls[i - 1];
      var before := if c.RunCall? then c.call.now else now;
      SameThroughout(s, r, config, ttl, calls, i - 1, before);
      StepSame(StateAt(s, config, calls, i - 1), RedisStateAt(r, config, ttl, calls, i - 1), config, ttl, c, before, now);
    } else {
      NothingSame(now);
    }
  }

  lemma NothingSame(now: real)
    ensures Same(map[], map[], now)
  {
    forall key: string ensures SameAt(map[], map[], key, now) {
    }
  }

  /** Over every history with a clock that does not go back, and with a positive lifetime of whole seconds,
      each call is answered as with the store in the process, and leaves the same world behind. */
  lemma RedisAnswersAlike(s: State, config: Config, ttl: nat, calls: seq<ToolCall>, i: nat)
    requires s.memory == map[] && ttl > 0 && config.defaultTtl == ttl as real
    requires i < |calls| && Ordered(calls)
    ensures var r := RedisState(s.world, map[]);
      && RedisStateAt(r, config, ttl, calls, i).world == StateAt(s, config, calls, i).world
      && RedisStateAt(r, config, ttl, calls, i + 1).world == StateAt(s, config, calls, i + 1).world
      && RedisAnswerAt(r, config, ttl, calls, i) == AnswerAt(s, config, calls, i)
  {
    hide Step, RedisStep, Same;
    var r, c := RedisState(s.world, map[]), calls[i];
    var now := if c.RunCall? then c.call.now else LastDone(calls, i);
    var later := if c.RunCall? then c.call.doneAt else now;
    SameThroughout(s, r, config, ttl, calls, i, now);
    StepSame(StateAt(s, config, calls, i), RedisStateAt(r, config, ttl, calls, i), config, ttl, c, now, later);
  }

  /** A time by which the calls before `i` are done. */
  function LastDone(calls: seq<ToolCall>, i: nat): (t: real)
    requires i <= |calls| && Ordered(calls)
    ensures DoneBy(calls, i, t)
  {
    if i == 0 then 0.0
    else if calls[i - 1].RunCall? then calls[i - 1].call.doneAt
    else LastDone(calls, i - 1)
  }

  /** The call at `i` started a run upstream. */
  ghost predicate RanOnRedis(r: RedisState, config: Config, ttl: nat, calls: seq<ToolCall>, i: nat)
    requires i < |calls|
  {
    RunScraperSafety.NewRun(RedisStateAt(r, config, ttl, calls, i).world, RedisStateAt(r, config, ttl, calls, i + 1).world)
  }

  predicate UnknownOnRedis(r: RedisState, config: Config, ttl: nat, calls: seq<ToolCall>, i: nat)
    requires i < |calls|
  {
    var a := RedisAnswerAt(r, config, ttl, calls, i);
    a.RunAnswer? && a.response.Failed? && a.response.failure.error.state == Some(StateUnknown)
  }

  /** No double payment with the store on Redis either: two runs started under one key are at least the key's
      lifetime apart, unless the first call answered that it does not know. */
  lemma RunsAreApartOnRedis(w: World, config: Config, ttl: nat, calls: seq<ToolCall>, i: nat, j: nat)
    requires ttl > 0 && config.defaultTtl == ttl as real
    requires i < j < |calls| && Valid(w) && Ordered(calls)
    requires var r := RedisState(w, map[]);
      && RanOnRedis(r, config, ttl, calls, i) && RanOnRedis(r, config, ttl, calls, j) && !UnknownOnRedis(r, config, ttl, calls, i)
      && KeyUsed(RedisStateAt(r, config, ttl, calls, i).world, config, calls[i])
           == KeyUsed(RedisStateAt(r, config, ttl, calls, j).world, config, calls[j])
    ensures calls[i].RunCall? && calls[j].RunCall?
    ensures calls[j].call.now >= calls[i].call.doneAt + if calls[i].call.idempotencyKey.None? then 120.0 else ttl as real
  {
    hide Step, RedisStep, KeyUsed;
    var s := State(w, map[]);
    RedisAnswersAlike(s, config, ttl, calls, i);
    RedisAnswersAlike(s, config, ttl, calls, j);
    RunsAreApart(s, config, calls, i, j);
  }
}
