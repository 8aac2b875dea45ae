/** Where `run_scraper` sends each input: the task row, the squid's params, or `params.functions`. */
module Routing {
  import opened Wrappers
  import opened Dicts
  import opened SchemaTranslator

  datatype Bucket = TaskRow | SquidParams | Functions

  function BucketOf(level: Level): Bucket {
    if IsSquidLevel(level) then SquidParams else if level == Function then Functions else TaskRow
  }

  /** An input no property describes goes to the task row. */
  function BucketOfKey(t: Translated, k: string): Bucket {
    if k in t.levels then BucketOf(t.levels[k]) else TaskRow
  }

  /** `wire_names.get(k, k)`. */
  function Wire(t: Translated, k: string): string {
    if k in t.wireNames then t.wireNames[k] else k
  }

  /** One of the three comprehensions: on a clash the later entry wins. */
  function Sent(t: Translated, input: Dict<Json>, b: Bucket): map<string, Json> {
    if input == [] then map[]
    else
      var before, last := Sent(t, input[..|input| - 1], b), input[|input| - 1];
      if BucketOfKey(t, last.key) == b then before[Wire(t, last.key) := last.value] else before
  }

  function TaskParams(t: Translated, input: Dict<Json>): map<string, Json> {
    Sent(t, input, TaskRow)
  }

  /** The squid-level params, the function toggles nested under `functions` when there are any. */
  function SquidParamsOf(t: Translated, input: Dict<Json>): map<string, Json> {
    var functions := Sent(t, input, Functions);
    if functions == map[] then Sent(t, input, SquidParams)
    else Sent(t, input, SquidParams)["functions" := JDict(functions)]
  }

  predicate HasTaskInput(t: Translated, input: Dict<Json>) {
    exists i | 0 <= i < |input| :: BucketOfKey(t, input[i].key) == TaskRow
  }

  method RouteInput(t: Translated, input: Dict<Json>)
    returns (taskParams: map<string, Json>, squidParams: map<string, Json>)
    ensures taskParams == TaskParams(t, input) && squidParams == SquidParamsOf(t, input)
  {
    squidParams, taskParams := map[], map[];
    var functions: map<string, Json> := map[];
    for i := 0 to |input|
      invariant squidParams == Sent(t, input[..i], SquidParams)
      invariant functions == Sent(t, input[..i], Functions)
      invariant taskParams == Sent(t, input[..i], TaskRow)
    {
      assert input[..i + 1][..i] == input[..i];
      var k, v := input[i].key, input[i].value;
      match BucketOfKey(t, k)
      case SquidParams => squidParams := squidParams[Wire(t, k) := v];
      case Functions => functions := functions[Wire(t, k) := v];
      case TaskRow => taskParams := taskParams[Wire(t, k) := v];
    }
    assert input[..|input|] == input;
    if functions != map[] {
      squidParams := squidParams["functions" := JDict(functions)];
    }
  }

  /** Where a value goes by the level of its property: to the squid for either of its names, nested for a
      toggle, and to the row for anything else, or for a key that has no property. */
  lemma OneValueRouted(t: Translated, k: string, v: Json)
    ensures var (row, params) := (TaskParams(t, [Entry(k, v)]), SquidParamsOf(t, [Entry(k, v)]));
      var sent := map[(if k in t.wireNames then t.wireNames[k] else k) := v];
      if k in t.levels && (t.levels[k] == Squid || t.levels[k] == Cluster) then row == map[] && params == sent
      else if k in t.levels && t.levels[k] == Function then row == map[] && params == map["functions" := JDict(sent)]
      else row == sent && params == map[]
  {
    var input := [Entry(k, v)];
    assert input[..|input| - 1] == [] && input[|input| - 1] == Entry(k, v);
    forall b: Bucket ensures Sent(t, input, b) == if BucketOfKey(t, k) == b then map[Wire(t, k) := v] else map[] {
    }
    assert Wire(t, k) in map[Wire(t, k) := v];
  }

  // ---- nothing is lost ----

  /** Two different keys of one input are sent to one place. */
  predicate Meet(t: Translated, j: string, k: string) {
    j != k && BucketOfKey(t, j) == BucketOfKey(t, k) && Wire(t, j) == Wire(t, k)
  }

  ghost predicate NoneMeet(t: Translated, input: Dict<Json>) {
    forall i, j | 0 <= i < j < |input| :: !Meet(t, input[i].key, input[j].key)
  }

  /** Each value is sorted into its bucket under its wire name, and no bucket holds anything else. */
  ghost predicate SortedOut(t: Translated, input: Dict<Json>) {
    && (forall i | 0 <= i < |input| ::
          var s := Sent(t, input, BucketOfKey(t, input[i].key));
          Wire(t, input[i].key) in s && s[Wire(t, input[i].key)] == input[i].value)
    && (forall b, w | w in Sent(t, input, b) ::
          exists i | 0 <= i < |input| :: BucketOfKey(t, input[i].key) == b && Wire(t, input[i].key) == w)
  }

  /** Whether the input holds a toggle, which is when `functions` is written into the squid's params. */
  predicate HasToggleInput(t: Translated, input: Dict<Json>) {
    exists i | 0 <= i < |input| :: BucketOfKey(t, input[i].key) == Functions
  }

  /** What the API receives in each place, read off the task row and the params as they go out. */
  function Received(t: Translated, input: Dict<Json>, b: Bucket): map<string, Json> {
    var params := SquidParamsOf(t, input);
    match b
    case TaskRow => TaskParams(t, input)
    case SquidParams => if HasToggleInput(t, input) then params - {"functions"} else params
    case Functions =>
      if HasToggleInput(t, input) && "functions" in params && params["functions"].JDict? then params["functions"].entries
      else map[]
  }

  /** Each value of the input is received in the place of its level under its wire name, and nothing else is
      received anywhere. */
  ghost predicate Lossless(t: Translated, input: Dict<Json>) {
    && (forall i | 0 <= i < |input| ::
          var r := Received(t, input, BucketOfKey(t, input[i].key));
          Wire(t, input[i].key) in r && r[Wire(t, input[i].key)] == input[i].value)
    && (forall b, w | w in Received(t, input, b) ::
          exists i | 0 <= i < |input| :: BucketOfKey(t, input[i].key) == b && Wire(t, input[i].key) == w)
  }

  lemma {:induction false} SentFrom(t: Translated, input: Dict<Json>, b: Bucket, w: string)
    ensures w in Sent(t, input, b) <==>
            exists i | 0 <= i < |input| :: BucketOfKey(t, input[i].key) == b && Wire(t, input[i].key) == w
  {
    if input != [] {
      var init, last := input[..|input| - 1], input[|input| - 1];
      SentFrom(t, init, b, w);
      if exists i | 0 <= i < |init| :: BucketOfKey(t, init[i].key) == b && Wire(t, init[i].key) == w {
        var i :| 0 <= i < |init| && BucketOfKey(t, init[i].key) == b && Wire(t, init[i].key) == w;
        assert input[i] == init[i];
      }
      if exists i | 0 <= i < |input| :: BucketOfKey(t, input[i].key) == b && Wire(t, input[i].key) == w {
        var i :| 0 <= i < |input| && BucketOfKey(t, input[i].key) == b && Wire(t, input[i].key) == w;
        if i < |init| {
          assert input[i] == init[i];
        }
      }
    }
  }

  lemma {:induction false} SentValue(t: Translated, input: Dict<Json>, i: nat)
    requires i < |input| && forall j | i < j < |input| :: !Meet(t, input[i].key, input[j].key) && input[i].key != input[j].key
    ensures var s := Sent(t, input, BucketOfKey(t, input[i].key));
      Wire(t, input[i].key) in s && s[Wire(t, input[i].key)] == input[i].value
  {
    var init := input[..|input| - 1];
    if i < |init| {
      assert init[i] == input[i];
      SentValue(t, init, i);
      assert !Meet(t, input[i].key, input[|input| - 1].key);
    }
  }

  lemma SortedIfNoneMeet(t: Translated, input: Dict<Json>)
    requires UniqueKeys(input) && NoneMeet(t, input)
    ensures SortedOut(t, input)
  {
    forall i | 0 <= i < |input|
      ensures var s := Sent(t, input, BucketOfKey(t, input[i].key));
        Wire(t, input[i].key) in s && s[Wire(t, input[i].key)] == input[i].value
    {
      SentValue(t, input, i);
    }
    forall b, w | w in Sent(t, input, b)
      ensures exists i | 0 <= i < |input| :: BucketOfKey(t, input[i].key) == b && Wire(t, input[i].key) == w
    {
      SentFrom(t, input, b, w);
    }
  }

  /** The crawler declares a level the router knows for each of its inputs. */
  predicate LevelsDeclared(items: seq<Item>) {
    forall it | it in items :: it.level.Some? && !it.level.value.OtherLevel?
  }

  /** What decides whether two keys can meet: a name whose shadowed entry is published at a level of the
      same bucket as the entry that kept the name. */
  predicate Clash(items: seq<Item>, params: Option<Params>, name: string) {
    var r := Resolve(items, name);
    IsShadowing(r) && BucketOf(AliasLevel(r, name, params)) == BucketOf(DeclaredLevel(r.kept))
  }

  /** With known levels, a shadowed entry goes to another bucket than the one that kept its name: the
      section of `/params` it is given excludes the kept entry's level, and so does its own level. */
  lemma DeclaredLevelsNeverClash(items: seq<Item>, params: Option<Params>, name: string)
    requires LevelsDeclared(items)
    ensures !Clash(items, params, name)
  {
    var r := Resolve(items, name);
    if IsShadowing(r) {
      ResolveSound(items, name);
      var candidates := LevelsFromParams(params, name) - {NormalizedLevel(r.kept)};
      assert candidates == {Task} ==> Task in candidates;
      assert candidates == {Squid} ==> Squid in candidates;
      assert candidates == {Function} ==> Function in candidates;
    }
  }

  /** Keys meet only when one is the alias of the other's shadowed entry. */
  lemma MeetIsClash(items: seq<Item>, params: Option<Params>, j: string, k: string)
    requires Meet(Translate(items, params), j, k)
    ensures exists n :: Clash(items, params, n)
  {
    var t := Translate(items, params);
    if j in t.wireNames && k in t.wireNames {
      AliasesDiffer(items, params, j, k);
      assert false;
    } else {
      var (a, n) := if j in t.wireNames then (j, k) else (k, j);
      assert a in t.wireNames && t.wireNames[a] == n;
      AliasSound(items, params, a);
      DeclaredKept(items, params, n);
      assert Clash(items, params, n);
    }
  }

  lemma ClashMeets(items: seq<Item>, params: Option<Params>, n: string) returns (a: string)
    requires Clash(items, params, n)
    ensures Meet(Translate(items, params), a, n)
  {
    a := ShadowedIsPublished(items, params, n);
    AliasSound(items, params, a);
    DeclaredKept(items, params, n);
  }

  lemma SortedWithoutClash(items: seq<Item>, params: Option<Params>, input: Dict<Json>)
    requires UniqueKeys(input) && forall n :: !Clash(items, params, n)
    ensures SortedOut(Translate(items, params), input)
  {
    var t := Translate(items, params);
    forall i, j | 0 <= i < j < |input| ensures !Meet(t, input[i].key, input[j].key) {
      if Meet(t, input[i].key, input[j].key) {
        MeetIsClash(items, params, input[i].key, input[j].key);
      }
    }
    SortedIfNoneMeet(t, input);
  }

  /** Every value of every input of a crawler that declares its levels is sorted into the bucket of its level. */
  lemma DeclaredLevelsSort(items: seq<Item>, params: Option<Params>, input: Dict<Json>)
    requires LevelsDeclared(items) && UniqueKeys(input)
    ensures SortedOut(Translate(items, params), input)
  {
    forall n ensures !Clash(items, params, n) {
      DeclaredLevelsNeverClash(items, params, n);
    }
    SortedWithoutClash(items, params, input);
  }

  // ---- the dictionary of toggles ----

  /** A setting that goes out as `functions`, beside a toggle: the dictionary of toggles takes its place. */
  predicate Overwrites(t: Translated, setting: string, toggle: string) {
    BucketOfKey(t, setting) == SquidParams && Wire(t, setting) == "functions" && BucketOfKey(t, toggle) == Functions
  }

  lemma ToggleInputIff(t: Translated, input: Dict<Json>)
    ensures HasToggleInput(t, input) <==> Sent(t, input, Functions) != map[]
  {
    if HasToggleInput(t, input) {
      var i :| 0 <= i < |input| && BucketOfKey(t, input[i].key) == Functions;
      SentFrom(t, input, Functions, Wire(t, input[i].key));
    }
    if Sent(t, input, Functions) != map[] {
      var w :| w in Sent(t, input, Functions);
      SentFrom(t, input, Functions, w);
    }
  }

  /** Without such a pair in the input, what is received is what was sorted out. */
  lemma ReceivedIsSent(t: Translated, input: Dict<Json>, b: Bucket)
    requires forall i, j | 0 <= i < |input| && 0 <= j < |input| :: !Overwrites(t, input[i].key, input[j].key)
    ensures Received(t, input, b) == Sent(t, input, b)
  {
    ToggleInputIff(t, input);
    if HasToggleInput(t, input) {
      var j :| 0 <= j < |input| && BucketOfKey(t, input[j].key) == Functions;
      SentFrom(t, input, SquidParams, "functions");
      assert "functions" !in Sent(t, input, SquidParams) by {
        assert forall i | 0 <= i < |input| :: !Overwrites(t, input[i].key, input[j].key);
      }
    }
  }

  lemma LosslessIffSorted(t: Translated, input: Dict<Json>)
    requires forall i, j | 0 <= i < |input| && 0 <= j < |input| :: !Overwrites(t, input[i].key, input[j].key)
    ensures Lossless(t, input) <==> SortedOut(t, input)
  {
    forall b: Bucket ensures Received(t, input, b) == Sent(t, input, b) {
      ReceivedIsSent(t, input, b);
    }
  }

  /** Routing loses no value of any input, and sends none elsewhere than the level it is published at says,
      exactly when no name clashes and no published setting goes out as `functions` beside a published
      toggle.  Whether that level is one the API lists is the subject of ParamsPlacement. */
  lemma RoutingLosslessIff(items: seq<Item>, params: Option<Params>)
    ensures (forall input: Dict<Json> | UniqueKeys(input) :: Lossless(Translate(items, params), input))
       <==> (forall n :: !Clash(items, params, n)) && (forall k, f :: !Overwrites(Translate(items, params), k, f))
  {
    hide Translate, Clash, Meet, Lossless;
    var t := Translate(items, params);
    if exists k, f :: Overwrites(t, k, f) {
      var k, f :| Overwrites(t, k, f);
      LostToToggles(t, k, f, JBool(true), JBool(true));
    } else if n: string :| Clash(items, params, n) {
      var a := ClashMeets(items, params, n);
      LostWhereKeysMeet(t, a, n);
    } else {
      forall input: Dict<Json> | UniqueKeys(input) ensures Lossless(t, input) {
        SortedWithoutClash(items, params, input);
        LosslessIffSorted(t, input);
      }
    }
  }

  /** Two keys that meet lose a value: the input holding both is not sent whole. */
  lemma LostWhereKeysMeet(t: Translated, j: string, k: string)
    requires Meet(t, j, k)
    ensures exists input: Dict<Json> | UniqueKeys(input) :: !Lossless(t, input)
  {
    var input := [Entry(j, JBool(true)), Entry(k, JBool(false))];
    assert UniqueKeys(input);
    assert input[..1] == [Entry(j, JBool(true))];
    var s := Sent(t, input, BucketOfKey(t, j));
    assert s[Wire(t, j)] == JBool(false);
    assert input[0].key == j && s[Wire(t, input[0].key)] != input[0].value;
    assert !SortedOut(t, input);
    LosslessIffSorted(t, input);
  }

  lemma SentOfTwo(t: Translated, e: Entry<Json>, e': Entry<Json>, b: Bucket)
    ensures var first := if BucketOfKey(t, e.key) == b then map[Wire(t, e.key) := e.value] else map[];
      Sent(t, [e, e'], b) == if BucketOfKey(t, e'.key) == b then first[Wire(t, e'.key) := e'.value] else first
  {
    assert [e, e'][..1] == [e] && [e][..0] == [];
    assert Sent(t, [e], b) == if BucketOfKey(t, e.key) == b then map[Wire(t, e.key) := e.value] else map[];
  }

  /** The setting is gone from the params, and nothing of it is anywhere else. */
  lemma LostToToggles(t: Translated, k: string, f: string, setting: Json, toggle: Json)
    requires Overwrites(t, k, f)
    ensures var input := [Entry(k, setting), Entry(f, toggle)];
      && UniqueKeys(input) && !Lossless(t, input)
      && TaskParams(t, input) == map[]
      && SquidParamsOf(t, input) == map["functions" := JDict(map[Wire(t, f) := toggle])]
  {
    var input := [Entry(k, setting), Entry(f, toggle)];
    forall b: Bucket ensures Sent(t, input, b) == if b == TaskRow then map[] else if b == SquidParams then map["functions" := setting]
                                                  else map[Wire(t, f) := toggle] {
      SentOfTwo(t, input[0], input[1], b);
    }
    var toggles := map[Wire(t, f) := toggle];
    assert Wire(t, f) in toggles;
    assert map["functions" := setting]["functions" := JDict(toggles)] == map["functions" := JDict(toggles)];
    assert input[1].key == f;
    assert "functions" !in Received(t, input, SquidParams);
    assert input[0].key == k;
  }

  /** Every value of every input of a crawler that declares its levels reaches exactly one place, as long as
      none of its settings goes out as `functions` beside a toggle. */
  lemma RoutingLossless(items: seq<Item>, params: Option<Params>, input: Dict<Json>)
    requires LevelsDeclared(items) && UniqueKeys(input)
    requires forall k, f :: !Overwrites(Translate(items, params), k, f)
    ensures Lossless(Translate(items, params), input)
  {
    DeclaredLevelsSort(items, params, input);
    LosslessIffSorted(Translate(items, params), input);
  }

  /** A crawler with declared levels and no clash that loses a value all the same: a setting called
      `functions`, beside a toggle. */
  lemma SettingCalledFunctionsIsLost(v: Json)
    ensures var items := [Item("functions", None, false, Some(Squid), None, None), Item("t", None, false, Some(Function), None, None)];
      var t := Translate(items, None);
      var input := [Entry("functions", v), Entry("t", JBool(true))];
      && LevelsDeclared(items) && (forall n :: !Clash(items, None, n)) && !Lossless(t, input)
      && TaskParams(t, input) == map[] && SquidParamsOf(t, input) == map["functions" := JDict(map["t" := JBool(true)])]
  {
    var a, b := Item("functions", None, false, Some(Squid), None, None), Item("t", None, false, Some(Function), None, None);
    assert LevelsDeclared([a, b]);
    forall n ensures !Clash([a, b], None, n) {
      DeclaredLevelsNeverClash([a, b], None, n);
    }
    TwoPlainItems(a, b);
    hide Translate;
    LostToToggles(Translate([a, b], None), "functions", "t", v, JBool(true));
  }

  lemma TwoPlainItems(a: Item, b: Item)
    requires a.name != b.name && a.level.Some? && b.level.Some?
    ensures var t := Translate([a, b], None);
      && a.name in t.levels && t.levels[a.name] == a.level.value && b.name in t.levels && t.levels[b.name] == b.level.value
      && a.name !in t.wireNames && b.name !in t.wireNames
  {
    var items := [a, b];
    assert items[..1] == [a] && [a][..0] == [];
    assert [a][|[a]| - 1] == a && [a][..|[a]| - 1] == [];
    assert Resolve([a], a.name) == Holds(a, None);
    assert Resolve([a][..|[a]| - 1], b.name) == Absent;
    assert Resolve([a], b.name) == Absent;
    assert Resolve(items, a.name) == Holds(a, None) && Resolve(items, b.name) == Holds(b, None);
    assert LevelsFromParams(None, a.name) == {} && LevelsFromParams(None, b.name) == {};
    DeclaredKept(items, None, a.name);
    DeclaredKept(items, None, b.name);
  }

  /** The `functions` dictionary takes no other value's place, unless a squid-level input has that name. */
  lemma FunctionsNested(t: Translated, input: Dict<Json>)
    requires forall i | 0 <= i < |input| :: !(BucketOfKey(t, input[i].key) == SquidParams && Wire(t, input[i].key) == "functions")
    ensures var p, s, f := SquidParamsOf(t, input), Sent(t, input, SquidParams), Sent(t, input, Functions);
      && "functions" !in s && p - {"functions"} == s
      && ("functions" in p <==> f != map[]) && (f != map[] ==> p["functions"] == JDict(f))
  {
    SentFrom(t, input, SquidParams, "functions");
  }

  /** The premise on levels is needed: an entry that declares none is sent to the squid when it is the
      shadowed one, where it meets the squid-level entry of its name. */
  lemma UndeclaredLevelClashes()
    ensures var items := [Item("x", None, true, Some(Squid), None, None), Item("x", None, false, None, None, None)];
      Clash(items, None, "x") && exists input: Dict<Json> | UniqueKeys(input) :: !Lossless(Translate(items, None), input)
  {
    var a, b := Item("x", None, true, Some(Squid), None, None), Item("x", None, false, None, None, None);
    var items := [a, b];
    assert items[..1] == [a] && [a][..0] == [];
    assert Resolve([a], "x") == Holds(a, None);
    assert Resolve(items, "x") == Holds(a, Some(b));
    assert LevelsFromParams(None, "x") == {};
    var alias := ClashMeets(items, None, "x");
    LostWhereKeysMeet(Translate(items, None), alias, "x");
  }
}
