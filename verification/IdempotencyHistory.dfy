/** Double payment: what the idempotency store prevents over whole histories of calls. */
module IdempotencyHistory {
  import opened Wrappers
  import opened Dicts
  import opened Text
  import opened Errors
  import opened Idempotency
  import opened RemoteApi
  import opened RunFlow
  import opened RunScraperSafety
  import RunScraperTheorems
  import opened Primitives
  import opened History

  /** The key a call is remembered under, if it gets to know its crawler. */
  function KeyUsed(w: World, config: Config, c: ToolCall): Option<string> {
    if !c.RunCall? then None
    else
      var load := LoadAll(w, c.call).0;
      if load.LoadDone? then Some(KeyOf(config, c.call, load.loaded)) else None
  }

  /** How long a run started by the call is remembered: two minutes under a derived key, the store's own
      time under the caller's; zero stands for ever. */
  function Lifetime(config: Config, call: Call): real {
    if call.idempotencyKey.None? then 120.0 else config.defaultTtl
  }

  /** When it is forgotten. */
  function Until(config: Config, call: Call): Option<real> {
    if Lifetime(config, call) != 0.0 then Some(call.doneAt + Lifetime(config, call)) else None
  }

  /** The clock does not go back, within a call or between two. */
  predicate Ordered(calls: seq<ToolCall>) {
    && (forall i | 0 <= i < |calls| && calls[i].RunCall? :: calls[i].call.now <= calls[i].call.doneAt)
    && (forall i, j | 0 <= i < j < |calls| && calls[i].RunCall? && calls[j].RunCall? :: calls[i].call.doneAt <= calls[j].call.now)
  }

  // ---- one call and the store ----

  /** How a call leaves the store: as it was but for an expired entry, or with the run it started. */
  ghost predicate MemoryOk(m: Memory, config: Config, call: Call, key: string, r: Response, m': Memory) {
    var known := Recall(m, key, call.now);
    if known.Some? then r == AlreadySubmitted(known.value) && m' == m
    else if r.Started? then m' == Remember(AfterRecall(m, key, call.now), key, r.run, TtlOf(call), config.defaultTtl, call.doneAt)
    else !r.AlreadySubmitted? && (m' == m || m' == AfterRecall(m, key, call.now))
  }

  lemma RunMemory(w: World, m: Memory, config: Config, call: Call)
    requires Valid(w)
    ensures var (r, w', m') := RunScraper(w, m, config, call);
      match KeyUsed(w, config, RunCall(call))
      case None => m' == m && !r.Started? && !r.AlreadySubmitted?
      case Some(key) =>
        MemoryOk(m, config, call, key, r, m')
        || (m' == m && r.ValidationFailed?)
  {
    LoadStopsQuietly(w, call);
    hide LoadAll, RunNow, InputErrors, KeyOf;
    LoadIsQuiet(w, call);
    var (load, w1) := LoadAll(w, call);
    if load.LoadDone? {
      ValidUnchanged(w, w1);
      NotSubmitted(w1, config, call, load.loaded);
    }
  }

  lemma LoadStopsQuietly(w: World, call: Call)
    ensures var load := LoadAll(w, call).0; load.LoadStopped? ==> load.response.Failed? || load.response.InvalidRequest?
  {
    LoadIsQuiet(w, call);
  }

  lemma ValidUnchanged(w: World, w': World)
    requires Valid(w) && Unchanged(w, w')
    ensures Valid(w')
  {
  }

  lemma NotSubmitted(w: World, config: Config, call: Call, l: Loaded)
    requires Valid(w) && LoadedFrom(w, call, l)
    ensures !RunNow(w, config, call, l).0.AlreadySubmitted?
  {
    RunNowFacts(w, config, call, l);
    var (q, w1) := Prepare(w, config, call, l);
    if q.Quoted? {
      PlanIsSound(w, config, call, l);
      if call.squidId.Some? {
        CommitReusedFacts(w1, call.squidId.value, q.plan);
        var (c, w2) := Commit(w1, q.plan);
        if c.Ready? {
          LaunchFacts(w2, q.plan, c, w1.squids[call.squidId.value].tasks);
        }
      }
    }
  }

  // ---- a remembered run stands in the way ----

  /** At time `t`, either the time `until` has come or the key is taken for at least that long. */
  ghost predicate Blocks(m: Memory, key: string, until: Option<real>, t: real) {
    || (until.Some? && until.value <= t)
    || (key in m && (m[key].expires.None? || (until.Some? && until.value <= m[key].expires.value)))
  }

  lemma BlocksOn(m: Memory, config: Config, call: Call, used: string, r: Response, m': Memory, key: string, until: Option<real>, t: real)
    requires MemoryOk(m, config, call, used, r, m') && Blocks(m, key, until, t) && t <= call.now <= call.doneAt
    ensures Blocks(m', key, until, call.doneAt)
    ensures used == key && !r.AlreadySubmitted? ==> until.Some? && until.value <= call.now
  {
  }

  lemma BlocksLater(m: Memory, key: string, until: Option<real>, t: real, t': real)
    requires Blocks(m, key, until, t) && t <= t'
    ensures Blocks(m, key, until, t')
  {
  }

  /** The latest time known before call `j`, given that call `i` before it was a run. */
  function ClockAt(calls: seq<ToolCall>, i: nat, j: nat): real
    requires i < j <= |calls| && calls[i].RunCall?
    decreases j
  {
    if calls[j - 1].RunCall? then calls[j - 1].call.doneAt else ClockAt(calls, i, j - 1)
  }

  lemma {:induction false} ClockIsPast(calls: seq<ToolCall>, i: nat, j: nat, k: nat)
    requires i < j <= k < |calls| && calls[i].RunCall? && calls[k].RunCall? && Ordered(calls)
    ensures ClockAt(calls, i, j) <= calls[k].call.now
    decreases j
  {
    if !calls[j - 1].RunCall? {
      ClockIsPast(calls, i, j - 1, k);
    }
  }

  ghost predicate MemoryStep(s: State, config: Config, c: ToolCall, a: Answer, m': Memory) {
    match KeyUsed(s.world, config, c)
    case None => m' == s.memory && !(a.RunAnswer? && a.response.Started?) && !(a.RunAnswer? && a.response.AlreadySubmitted?)
    case Some(key) => c.RunCall? && a.RunAnswer? && (MemoryOk(s.memory, config, c.call, key, a.response, m') || (m' == s.memory && a.response.ValidationFailed?))
  }

  lemma StepMemory(s: State, config: Config, c: ToolCall)
    requires Valid(s.world)
    ensures var (a, s') := Step(s, config, c); MemoryStep(s, config, c, a, s'.memory)
  {
    if c.RunCall? {
      RunMemory(s.world, s.memory, config, c.call);
    }
  }

  lemma {:induction false} ValidAt(s: State, config: Config, calls: seq<ToolCall>, i: nat)
    requires i <= |calls| && Valid(s.world)
    ensures Valid(StateAt(s, config, calls, i).world)
  {
    hide Step;
    if i > 0 {
      ValidAt(s, config, calls, i - 1);
      StepValid(StateAt(s, config, calls, i - 1), config, calls[i - 1]);
    }
  }

  lemma StepValid(s: State, config: Config, c: ToolCall)
    requires Valid(s.world)
    ensures Valid(Step(s, config, c).1.world)
  {
    match c
    case RunCall(call) => RunBackground(s.world, s.memory, config, call);
    case AttachCall(id, account) =>
      if id in s.world.squids {
        AttachKeeps(s.world, id, account, id);
      }
    case UpdateCall(id, name, cfg) =>
      if id in s.world.squids {
        UpdateKeeps(s.world, id, name, cfg, id);
      } else {
        SquidReadIsQuiet(s.world, id);
      }
    case CreateCall(crawler, name, cfg) =>
      CreateNamesItsSquid(s.world, crawler, name, cfg);
      NewBackground(s.world, CreateSquidTool(s.world, crawler, name, cfg).1, InvalidRequest);
  }

  lemma BlocksStep(s: State, config: Config, c: ToolCall, key: string, until: Option<real>, t: real)
    requires Valid(s.world) && Blocks(s.memory, key, until, t)
    requires c.RunCall? ==> t <= c.call.now <= c.call.doneAt
    ensures Blocks(Step(s, config, c).1.memory, key, until, if c.RunCall? then c.call.doneAt else t)
  {
    StepMemory(s, config, c);
    hide Step;
    var (a, s') := Step(s, config, c);
    var used := KeyUsed(s.world, config, c);
    if used.Some? && MemoryOk(s.memory, config, c.call, used.value, a.response, s'.memory) {
      BlocksOn(s.memory, config, c.call, used.value, a.response, s'.memory, key, until, t);
    } else if c.RunCall? {
      BlocksLater(s.memory, key, until, t, c.call.doneAt);
    }
  }

  /** What is remembered from call `i` blocks its key until it is forgotten, whatever is called since. */
  lemma {:induction false} BlocksSince(s: State, config: Config, calls: seq<ToolCall>, i: nat, j: nat, key: string, until: Option<real>)
    requires i < j <= |calls| && Valid(s.world) && Ordered(calls) && calls[i].RunCall?
    requires Blocks(StateAt(s, config, calls, i + 1).memory, key, until, calls[i].call.doneAt)
    ensures Blocks(StateAt(s, config, calls, j).memory, key, until, ClockAt(calls, i, j))
    decreases j
  {
    hide Step;
    if j > i + 1 {
      BlocksSince(s, config, calls, i, j - 1, key, until);
      ValidAt(s, config, calls, j - 1);
      if calls[j - 1].RunCall? {
        ClockIsPast(calls, i, j - 1, j - 1);
      }
      BlocksStep(StateAt(s, config, calls, j - 1), config, calls[j - 1], key, until, ClockAt(calls, i, j - 1));
    }
  }

  /** The call at `i` started a run upstream. */
  ghost predicate RanAt(s: State, config: Config, calls: seq<ToolCall>, i: nat)
    requires i < |calls|
  {
    NewRun(StateAt(s, config, calls, i).world, StateAt(s, config, calls, i + 1).world)
  }

  /** The answer to the call at `i` says that what became of the last request is unknown. */
  predicate UnknownAt(s: State, config: Config, calls: seq<ToolCall>, i: nat)
    requires i < |calls|
  {
    var a := AnswerAt(s, config, calls, i);
    a.RunAnswer? && a.response.Failed? && a.response.failure.error.state == Some(StateUnknown)
  }

  /** Only `run_scraper` starts runs. */
  lemma OthersStartNothing(s: State, config: Config, c: ToolCall)
    requires Valid(s.world) && !c.RunCall?
    ensures Step(s, config, c).1.world.runs == s.world.runs
  {
    match c
    case AttachCall(id, account) =>
      if id in s.world.squids {
        AttachOnlyGrows(s.world, id, account);
      }
    case UpdateCall(id, name, cfg) =>
      SquidReadIsQuiet(s.world, id);
      if id in s.world.squids {
        UpdateMerges(s.world, id, name, cfg);
      }
    case CreateCall(crawler, name, cfg) => CreateNamesItsSquid(s.world, crawler, name, cfg);
  }

  /** A call that starts a run finds its key free, and unless it cannot tell, remembers the run. */
  lemma RunTakesItsKey(s: State, config: Config, c: ToolCall)
    requires Valid(s.world) && NewRun(s.world, Step(s, config, c).1.world)
    ensures c.RunCall? && KeyUsed(s.world, config, c).Some?
    ensures var key := KeyUsed(s.world, config, c).value;
      var (a, s') := Step(s, config, c);
      && a.RunAnswer? && Recall(s.memory, key, c.call.now).None?
      && (a.response.Started? || (a.response.Failed? && a.response.failure.error.state == Some(StateUnknown)))
      && (a.response.Started? ==> Blocks(s'.memory, key, Until(config, c.call), c.call.doneAt))
  {
    if !c.RunCall? {
      OthersStartNothing(s, config, c);
    } else {
      RunScraperTheorems.AtMostOneRun(s.world, s.memory, config, c.call);
      RunMemory(s.world, s.memory, config, c.call);
    }
  }

  lemma KeyIsFree(m: Memory, key: string, until: Option<real>, t: real, now: real)
    requires Blocks(m, key, until, t) && t <= now && Recall(m, key, now).None?
    ensures until.Some? && until.value <= now
  {
  }

  /** No double payment.  In any history of calls with a clock that does not go back, two runs started under
      one key are at least the key's lifetime apart, unless the first call had to answer that it does not
      know what became of its run; and a lifetime of zero allows no second run at all. */
  lemma RunsAreApart(s: State, config: Config, calls: seq<ToolCall>, i: nat, j: nat)
    requires i < j < |calls| && Valid(s.world) && Ordered(calls)
    requires RanAt(s, config, calls, i) && RanAt(s, config, calls, j) && !UnknownAt(s, config, calls, i)
    requires KeyUsed(StateAt(s, config, calls, i).world, config, calls[i]) == KeyUsed(StateAt(s, config, calls, j).world, config, calls[j])
    ensures calls[i].RunCall? && calls[j].RunCall?
    ensures Lifetime(config, calls[i].call) != 0.0
            && calls[j].call.now >= calls[i].call.doneAt + Lifetime(config, calls[i].call)
  {
    hide Step, KeyUsed;
    var a, b := StateAt(s, config, calls, i), StateAt(s, config, calls, j);
    ValidAt(s, config, calls, i);
    ValidAt(s, config, calls, j);
    RunTakesItsKey(a, config, calls[i]);
    RunTakesItsKey(b, config, calls[j]);
    var key, until := KeyUsed(a.world, config, calls[i]).value, Until(config, calls[i].call);
    BlocksSince(s, config, calls, i, j, key, until);
    ClockIsPast(calls, i, j, j);
    KeyIsFree(b.memory, key, until, ClockAt(calls, i, j), calls[j].call.now);
  }

  // ---- `already_submitted` tells the truth ----

  /** The call at `j` started the run that the entry remembers, under its key and for its lifetime. */
  ghost predicate Origin(s: State, config: Config, calls: seq<ToolCall>, j: nat, key: string, e: Remembered)
    requires j < |calls|
  {
    var a := AnswerAt(s, config, calls, j);
    && calls[j].RunCall? && a.RunAnswer? && a.response.Started? && a.response.run == e.run
    && KeyUsed(StateAt(s, config, calls, j).world, config, calls[j]) == Some(key)
    && e.expires == Until(config, calls[j].call)
  }

  lemma {:induction false} MemoryHasOrigins(s: State, config: Config, calls: seq<ToolCall>, i: nat, key: string) returns (j: nat)
    requires i <= |calls| && Valid(s.world) && s.memory == map[]
    requires key in StateAt(s, config, calls, i).memory
    ensures j < i && Origin(s, config, calls, j, key, StateAt(s, config, calls, i).memory[key])
    decreases i
  {
    hide Step, KeyUsed;
    var t := StateAt(s, config, calls, i - 1);
    var (a, t') := Step(t, config, calls[i - 1]);
    ValidAt(s, config, calls, i - 1);
    StepMemory(t, config, calls[i - 1]);
    if key in t.memory && t.memory[key] == t'.memory[key] {
      j := MemoryHasOrigins(s, config, calls, i - 1, key);
    } else {
      j := i - 1;
    }
  }

  /** A call answered with `already_submitted` names a run that an earlier call of the history started under
      the same key and that is still remembered. */
  lemma AlreadySubmittedIsTrue(s: State, config: Config, calls: seq<ToolCall>, i: nat, run: nat) returns (j: nat)
    requires i < |calls| && Valid(s.world) && s.memory == map[]
    requires AnswerAt(s, config, calls, i) == RunAnswer(AlreadySubmitted(run))
    ensures j < i && calls[i].RunCall? && calls[j].RunCall?
    ensures KeyUsed(StateAt(s, config, calls, i).world, config, calls[i]).Some?
    ensures Origin(s, config, calls, j, KeyUsed(StateAt(s, config, calls, i).world, config, calls[i]).value,
                   Remembered(run, Until(config, calls[j].call)))
    ensures Lifetime(config, calls[j].call) == 0.0
            || calls[i].call.now < calls[j].call.doneAt + Lifetime(config, calls[j].call)
  {
    hide Step, KeyUsed;
    var t := StateAt(s, config, calls, i);
    ValidAt(s, config, calls, i);
    StepMemory(t, config, calls[i]);
    var used := KeyUsed(t.world, config, calls[i]);
    AnsweredByRun(t, config, calls[i]);
    j := MemoryHasOrigins(s, config, calls, i, used.value);
  }

  lemma AnsweredByRun(s: State, config: Config, c: ToolCall)
    requires Valid(s.world) && Step(s, config, c).0.RunAnswer? && Step(s, config, c).0.response.AlreadySubmitted?
    ensures c.RunCall? && KeyUsed(s.world, config, c).Some?
    ensures Recall(s.memory, KeyUsed(s.world, config, c).value, c.call.now) == Some(Step(s, config, c).0.response.run)
  {
    hide Step, KeyUsed;
    StepMemory(s, config, c);
  }

  /** Two calls share a key exactly when they are of one user and one kind, and agree in what the kind is made
      of: the caller's own key, whatever is asked for under it, or the target and the printed input. */
  lemma SharedKeyIff(config: Config, call: Call, l: Loaded, call': Call, l': Loaded)
    requires IsScope(call.scope) && IsScope(call'.scope) && Injective(config.digest.sha)
    requires '|' !in TargetText(call, l) && '|' !in TargetText(call', l')
    ensures KeyOf(config, call, l) == KeyOf(config, call', l') <==>
              && call.scope == call'.scope && call.idempotencyKey == call'.idempotencyKey
              && (call.idempotencyKey.None? ==>
                    && TargetText(call, l) == TargetText(call', l')
                    && config.digest.dumps(ToMap(InputSent(call, l))) == config.digest.dumps(ToMap(InputSent(call', l'))))
  {
    var d, v, v' := config.digest, ToMap(InputSent(call, l)), ToMap(InputSent(call', l'));
    match (call.idempotencyKey, call'.idempotencyKey)
    case (Some(k), Some(k')) => ExplicitKeysDiffer(call.scope, k, call'.scope, k');
    case (Some(k), None) => KindsNeverCollide(d, call.scope, k, call'.scope, TargetText(call', l'), v');
    case (None, Some(k')) => KindsNeverCollide(d, call'.scope, k', call.scope, TargetText(call, l), v);
    case (None, None) => DerivedKeysDiffer(d, call.scope, TargetText(call, l), v, call'.scope, TargetText(call', l'), v');
  }

  lemma NumeralHasNoBar(n: nat)
    ensures '|' !in OfNat(n)
  {
  }

  /** Without keys of their own, two calls on saved squids share a key exactly when user, squid and printed
      input agree: `confirm`, `replace_tasks`, the account and the scraper named are not in it. */
  lemma SharedKeyOnSavedIff(config: Config, call: Call, l: Loaded, call': Call, l': Loaded)
    requires IsScope(call.scope) && IsScope(call'.scope) && Injective(config.digest.sha)
    requires call.squidId.Some? && call'.squidId.Some? && call.idempotencyKey.None? && call'.idempotencyKey.None?
    ensures KeyOf(config, call, l) == KeyOf(config, call', l') <==>
              && call.scope == call'.scope && call.squidId == call'.squidId
              && config.digest.dumps(ToMap(call.input)) == config.digest.dumps(ToMap(call'.input))
  {
    NumeralHasNoBar(call.squidId.value);
    NumeralHasNoBar(call'.squidId.value);
    SharedKeyIff(config, call, l, call', l');
    ToNatOfNat(call.squidId.value);
    ToNatOfNat(call'.squidId.value);
  }
}
