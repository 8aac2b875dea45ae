/** Translates a crawler's declared inputs, and the API's own placement of them, into one flat schema
    of property names, each with the level it is sent at and the name the API knows it by. */
module SchemaTranslator {
  import opened Wrappers
  import opened Dicts
  import opened Text

  // ---- what the API answers ----

  /** The JSON types `_TYPE_MAP` knows, whatever their spelling. */
  datatype Kind = StringKind | IntegerKind | NumberKind | BooleanKind | ArrayKind | ObjectKind

  /** A declared type: one of those, or a spelling that is in no table. */
  datatype DeclaredKind = Known(kind: Kind) | UnknownKind

  /** A level name.  "cluster" is the API's older word for "squid". */
  datatype Level = Task | Squid | Cluster | Function | OtherLevel(name: string)

  /** One entry of a crawler's `input[]`; an empty level or group counts as an absent one. */
  datatype Item = Item(name: string, kind: Option<DeclaredKind>, required: bool, level: Option<Level>,
                       group: Option<string>, default: Option<Json>)

  datatype Spec = Spec(kind: Option<DeclaredKind>, default: Option<Json>)

  /** One entry of the squid section of `/params`: a setting (a bare value has no spec), or the
      `functions` dictionary of toggles. */
  datatype SquidEntry =
    | Setting(name: string, spec: Option<Spec>)
    | Toggles(toggles: Dict<Option<Spec>>)

  datatype Params = Params(task: seq<string>, squid: seq<SquidEntry>)

  // ---- levels ----

  predicate IsSquidLevel(level: Level) {
    level == Squid || level == Cluster
  }

  function DeclaredLevel(item: Item): Level {
    item.level.GetOr(Task)
  }

  function Normalized(level: Level): Level {
    if level == Cluster then Squid else level
  }

  function NormalizedLevel(item: Item): Level {
    Normalized(DeclaredLevel(item))
  }

  function LevelText(level: Level): string {
    match level
    case Task => "task"
    case Squid => "squid"
    case Cluster => "cluster"
    case Function => "function"
    case OtherLevel(name) => name
  }

  predicate Lists(params: Option<Params>, level: Level, name: string) {
    params.Some? &&
    match level
    case Task => name in params.value.task
    case Squid => exists e | e in params.value.squid :: e.Setting? && e.name == name
    case Function => exists e | e in params.value.squid :: e.Toggles? && HasKey(e.toggles, name)
    case _ => false
  }

  /** `_levels_from_params`: every level `/params` places a name at. */
  function LevelsFromParams(params: Option<Params>, name: string): set<Level> {
    set level | level in {Task, Squid, Function} && Lists(params, level, name)
  }

  /** `_placement_from_params`: the task claim wins, then the function one. */
  function Placement(params: Option<Params>, name: string): Option<Level> {
    var at := LevelsFromParams(params, name);
    if Task in at then Some(Task)
    else if Function in at then Some(Function)
    else if Squid in at then Some(Squid)
    else None
  }

  // ---- entries that share a name ----

  /** What became of the entries of one name: the one that keeps it, and the one it shadows, if the two
      sit at different levels. */
  datatype Resolved = Absent | Holds(kept: Item, shadowed: Option<Item>)

  /** The required entry outranks one that is not; otherwise the first one stays. */
  predicate Outranks(a: Item, b: Item) {
    a.required && !b.required
  }

  function MergeEntry(r: Resolved, item: Item): Resolved {
    match r
    case Absent => Holds(item, None)
    case Holds(previous, shadowed) =>
      var (keep, drop) := if Outranks(item, previous) then (item, previous) else (previous, item);
      Holds(keep, if NormalizedLevel(drop) != NormalizedLevel(keep) then Some(drop) else shadowed)
  }

  function Resolve(items: seq<Item>, name: string): Resolved {
    if items == [] then Absent
    else
      var before := Resolve(items[..|items| - 1], name);
      var last := items[|items| - 1];
      if last.name == name then MergeEntry(before, last) else before
  }

  /** The names, in order of first appearance. */
  function Names(items: seq<Item>): (names: seq<string>)
    ensures Distinct(names)
  {
    if items == [] then []
    else
      var before, last := Names(items[..|items| - 1]), items[|items| - 1];
      if last.name in before then before else before + [last.name]
  }

  lemma {:induction false} NamesIn(items: seq<Item>, n: string)
    ensures n in Names(items) <==> Declared(items, n)
  {
    if items != [] {
      NamesIn(items[..|items| - 1], n);
    }
  }

  predicate Declared(items: seq<Item>, name: string) {
    Resolve(items, name).Holds?
  }

  predicate IsShadowing(r: Resolved) {
    r.Holds? && r.shadowed.Some?
  }

  /** The names that shadow an entry, in the order in which they first did. */
  function ShadowNames(items: seq<Item>): (names: seq<string>)
    ensures Distinct(names)
  {
    if items == [] then []
    else
      var before, last := ShadowNames(items[..|items| - 1]), items[|items| - 1];
      if IsShadowing(Resolve(items, last.name)) && last.name !in before then before + [last.name] else before
  }

  lemma {:induction false} ShadowNamesIn(items: seq<Item>, n: string)
    ensures n in ShadowNames(items) <==> IsShadowing(Resolve(items, n))
  {
    if items != [] {
      ShadowNamesIn(items[..|items| - 1], n);
    }
  }

  predicate Distinct(names: seq<string>) {
    forall i, j | 0 <= i < j < |names| :: names[i] != names[j]
  }

  /** What the loop over `input[]` maintains of one name.  The point is the last two clauses: a name is
      required as soon as one of its entries is, and a shadowed entry never shares the level of the
      entry that kept the name. */
  lemma {:induction false} ResolveSound(items: seq<Item>, name: string)
    ensures var r := Resolve(items, name);
      && (r.Holds? <==> exists it | it in items :: it.name == name)
      && (r.Holds? ==> r.kept in items && r.kept.name == name)
      && (r.Holds? ==> forall it | it in items && it.name == name && it.required :: r.kept.required)
      && (IsShadowing(r) ==>
            && r.shadowed.value in items && r.shadowed.value.name == name
            && NormalizedLevel(r.shadowed.value) != NormalizedLevel(r.kept))
  {
    if items != [] {
      ResolveSound(items[..|items| - 1], name);
      assert items == items[..|items| - 1] + [items[|items| - 1]];
    }
  }

  /** Where the shadowed entry goes: the one section of `/params` the kept entry leaves, if it is one,
      else the level it declares, else the squid. */
  function ShadowedLevel(name: string, shadowed: Item, kept: Item, params: Option<Params>): Level {
    var candidates := LevelsFromParams(params, name) - {NormalizedLevel(kept)};
    if candidates == {Task} then Task
    else if candidates == {Squid} then Squid
    else if candidates == {Function} then Function
    else shadowed.level.GetOr(Squid)
  }

  // ---- aliases ----

  function Candidate(base: string, n: nat): string {
    if n == 1 then base else base + "_" + OfNat(n)
  }

  lemma CandidatesDiffer(base: string, m: nat, n: nat)
    requires 1 <= m < n
    ensures Candidate(base, m) != Candidate(base, n)
  {
    if m == 1 {
      assert |Candidate(base, n)| > |base|;
    } else {
      ToNatOfNat(m);
      ToNatOfNat(n);
      assert Candidate(base, m)[|base| + 1..] == OfNat(m);
      assert Candidate(base, n)[|base| + 1..] == OfNat(n);
    }
  }

  /** The first free candidate from number `n` on, once the names that were tried are struck off. */
  function FirstFree(base: string, n: nat, taken: set<string>): string
    decreases taken
  {
    if Candidate(base, n) !in taken then Candidate(base, n)
    else FirstFree(base, n + 1, taken - {Candidate(base, n)})
  }

  /** Each candidate that is taken uses up a taken name, so the search ends within as many tries as there
      are taken names, and one more. */
  lemma {:induction false} FirstFreeNumber(base: string, n: nat, taken: set<string>) returns (k: nat)
    ensures n <= k <= n + |taken| && FirstFree(base, n, taken) == Candidate(base, k)
    decreases taken
  {
    if Candidate(base, n) !in taken {
      k := n;
    } else {
      k := FirstFreeNumber(base, n + 1, taken - {Candidate(base, n)});
    }
  }

  /** Candidates differ, so striking off the tried ones frees no later one. */
  lemma {:induction false} FirstFreeIsFree(base: string, n: nat, taken: set<string>)
    requires n >= 1
    ensures FirstFree(base, n, taken) !in taken
    decreases taken
  {
    if Candidate(base, n) in taken {
      var rest := taken - {Candidate(base, n)};
      FirstFreeIsFree(base, n + 1, rest);
      var k := FirstFreeNumber(base, n + 1, rest);
      CandidatesDiffer(base, n, k);
    }
  }

  function AliasBase(level: Level, name: string): string {
    LevelText(Normalized(level)) + "_" + name
  }

  /** `_alias_name`: the level, an underscore and the API's own name, numbered only if that is taken. */
  function AliasName(level: Level, name: string, taken: set<string>): string {
    FirstFree(AliasBase(level, name), 1, taken)
  }

  /** The first candidate nobody has taken, found on try number `tries`. */
  ghost predicate FoundOnTry(base: string, tries: nat, alias: string, taken: set<string>) {
    && 1 <= tries <= |taken| + 1 && alias == Candidate(base, tries) && alias !in taken
    && forall k | 1 <= k < tries :: Candidate(base, k) in taken
  }

  /** The search as the loop that runs it. */
  method SearchAlias(level: Level, name: string, taken: set<string>) returns (alias: string)
    ensures alias == AliasName(level, name, taken)
    ensures exists tries: nat :: FoundOnTry(AliasBase(level, name), tries, alias, taken)
  {
    var base := AliasBase(level, name);
    var n := 1;
    alias := base;
    ghost var left := taken;
    while alias in taken
      invariant n >= 1 && alias == Candidate(base, n)
      invariant left <= taken && |taken| - |left| == n - 1
      invariant forall k | 1 <= k < n :: Candidate(base, k) in taken
      invariant forall c | c in taken && c !in left :: exists k :: 1 <= k < n && c == Candidate(base, k)
      invariant FirstFree(base, n, left) == AliasName(level, name, taken)
      decreases left
    {
      forall k | 1 <= k < n ensures Candidate(base, k) != alias {
        CandidatesDiffer(base, k, n);
      }
      left := left - {alias};
      n := n + 1;
      alias := base + "_" + OfNat(n);
    }
    assert FoundOnTry(base, n, alias, taken);
  }

  // ---- the schema ----

  datatype Property = Property(kind: Option<Kind>, default: Option<Json>)

  /** A type the table does not know, or none at all, is a string. */
  function PropertyFromItem(item: Item): Property {
    Property(Some(match item.kind case Some(Known(kind)) => kind case _ => StringKind), item.default)
  }

  /** `_params_type`: the declared type, else the type of the default, else none. */
  function ParamsType(spec: Spec): Option<Kind> {
    if spec.kind.Some? && spec.kind.value.Known? then Some(spec.kind.value.kind)
    else match spec.default
      case None => None
      case Some(JNull) => None
      case Some(JBool(_)) => Some(BooleanKind)
      case Some(JInt(_)) => Some(IntegerKind)
      case Some(JReal(_)) => Some(NumberKind)
      case Some(JStr(_)) => Some(StringKind)
      case Some(JList(_)) => Some(ArrayKind)
      case Some(JDict(_)) => Some(ObjectKind)
  }

  function ToggleSpecs(specs: Dict<Spec>, toggles: Dict<Option<Spec>>): Dict<Spec>
    decreases toggles
  {
    if toggles == [] then specs
    else ToggleSpecs(if toggles[0].value.Some? then Put(specs, toggles[0].key, toggles[0].value.value) else specs,
                     toggles[1..])
  }

  function SquidSpecs(specs: Dict<Spec>, squid: seq<SquidEntry>): Dict<Spec>
    decreases squid
  {
    if squid == [] then specs
    else SquidSpecs(match squid[0]
                    case Toggles(toggles) => ToggleSpecs(specs, toggles)
                    case Setting(name, spec) => if spec.Some? then Put(specs, name, spec.value) else specs,
                    squid[1..])
  }

  /** `_params_only_specs`: every input the squid section of `/params` describes. */
  function ParamsOnlySpecs(params: Option<Params>): Dict<Spec> {
    if params.None? then [] else SquidSpecs([], params.value.squid)
  }

  datatype Modes = Modes(either: seq<seq<string>>, always: seq<string>)

  /** The names of the entries `p` selects, in order. */
  function NamesWhere(items: seq<Item>, p: Item -> bool): seq<string> {
    if items == [] then []
    else
      var before, last := NamesWhere(items[..|items| - 1], p), items[|items| - 1];
      if p(last) then before + [last.name] else before
  }

  lemma {:induction false} NamesWhereHas(items: seq<Item>, p: Item -> bool, it: Item)
    requires it in items && p(it)
    ensures it.name in NamesWhere(items, p)
  {
    if it != items[|items| - 1] {
      assert items == items[..|items| - 1] + [items[|items| - 1]];
      NamesWhereHas(items[..|items| - 1], p, it);
    }
  }

  lemma {:induction false} NamesWhereOnly(items: seq<Item>, p: Item -> bool, f: string) returns (it: Item)
    requires f in NamesWhere(items, p)
    ensures it in items && p(it) && it.name == f
  {
    var last := items[|items| - 1];
    if p(last) && last.name == f {
      it := last;
    } else {
      it := NamesWhereOnly(items[..|items| - 1], p, f);
    }
  }

  /** The groups that carry a required entry, in order of first appearance. */
  function GroupNames(items: seq<Item>): seq<string> {
    if items == [] then []
    else
      var before, last := GroupNames(items[..|items| - 1]), items[|items| - 1];
      if last.required && last.group.Some? && last.group.value !in before then before + [last.group.value]
      else before
  }

  /** Selects the required entries of one group. */
  function RequiredIn(g: string): Item -> bool {
    (it: Item) => it.required && it.group == Some(g)
  }

  function GroupFields(items: seq<Item>, g: string): seq<string> {
    NamesWhere(items, RequiredIn(g))
  }

  /** Required in any case: no group, and no default to fill in. */
  predicate AlwaysRequired(it: Item) {
    it.required && it.group.None? && it.default.None?
  }

  function AlwaysFields(items: seq<Item>): seq<string> {
    NamesWhere(items, AlwaysRequired)
  }

  function Either(items: seq<Item>): seq<seq<string>> {
    var gs := GroupNames(items);
    seq(|gs|, i requires 0 <= i < |gs| => GroupFields(items, gs[i]))
  }

  /** `_input_modes`: alternatives exist only when two or more groups carry a required entry. */
  function InputModes(items: seq<Item>): Option<Modes> {
    if |GroupNames(items)| < 2 then None else Some(Modes(Either(items), AlwaysFields(items)))
  }

  datatype Translated = Translated(properties: map<string, Property>, levels: map<string, Level>,
                                   wireNames: map<string, string>, required: seq<string>,
                                   modes: Option<Modes>, defaultsToFill: Dict<Json>)

  function Kept(items: seq<Item>, name: string): Item
    requires Declared(items, name)
  {
    Resolve(items, name).kept
  }

  /** The entry's own level when it shadows another one, else the API's placement of the name. */
  function KeptLevel(items: seq<Item>, name: string, params: Option<Params>): Level
    requires Declared(items, name)
  {
    if IsShadowing(Resolve(items, name)) then DeclaredLevel(Kept(items, name))
    else Placement(params, name).GetOr(DeclaredLevel(Kept(items, name)))
  }

  /** Required by the plain schema: filled by no default, or in a group. */
  predicate PlainRequired(it: Item) {
    it.required && (it.group.Some? || it.default.None?)
  }

  predicate FilledByDefault(it: Item) {
    it.required && it.group.None? && it.default.Some?
  }

  function RequiredFields(items: seq<Item>): seq<string> {
    NamesWhere(items, PlainRequired)
  }

  function Defaults(items: seq<Item>): Dict<Json> {
    if items == [] then []
    else
      var before, last := Defaults(items[..|items| - 1]), items[|items| - 1];
      if FilledByDefault(last) then before + [Entry(last.name, last.default.value)] else before
  }

  lemma {:induction false} DefaultsHave(items: seq<Item>, it: Item)
    requires it in items && FilledByDefault(it)
    ensures HasKey(Defaults(items), it.name)
  {
    var init, last, d := items[..|items| - 1], items[|items| - 1], Defaults(items);
    if it == last {
      assert d[|d| - 1].key == it.name;
    } else {
      assert items == init + [last];
      DefaultsHave(init, it);
      var i :| 0 <= i < |Defaults(init)| && Defaults(init)[i].key == it.name;
      assert d[i].key == it.name;
    }
  }

  lemma {:induction false} DefaultsOnly(items: seq<Item>, i: nat) returns (it: Item)
    requires i < |Defaults(items)|
    ensures it in items && FilledByDefault(it) && Defaults(items)[i] == Entry(it.name, it.default.value)
  {
    var init, last := items[..|items| - 1], items[|items| - 1];
    if i == |Defaults(init)| {
      it := last;
    } else {
      it := DefaultsOnly(init, i);
    }
  }

  /** The entries that kept their names, in order. */
  function KeptItems(items: seq<Item>): (kept: seq<Item>)
    ensures |kept| == |Names(items)|
    ensures forall i | 0 <= i < |kept| :: Declared(items, Names(items)[i]) && kept[i] == Kept(items, Names(items)[i])
  {
    var names := Names(items);
    NamesDeclared(items);
    seq(|names|, i requires 0 <= i < |names| => Kept(items, names[i]))
  }

  lemma {:induction false} KeptName(items: seq<Item>, name: string)
    requires Declared(items, name)
    ensures Kept(items, name).name == name
  {
    var before := Resolve(items[..|items| - 1], name);
    if before.Holds? {
      KeptName(items[..|items| - 1], name);
    }
  }

  predicate AllDeclared(items: seq<Item>, names: seq<string>) {
    forall i | 0 <= i < |names| :: Declared(items, names[i])
  }

  function KeptProperties(items: seq<Item>, names: seq<string>): map<string, Property>
    requires AllDeclared(items, names)
  {
    if names == [] then map[]
    else
      var last := names[|names| - 1];
      KeptProperties(items, names[..|names| - 1])[last := PropertyFromItem(Kept(items, last))]
  }

  function KeptLevels(items: seq<Item>, params: Option<Params>, names: seq<string>): map<string, Level>
    requires AllDeclared(items, names)
  {
    if names == [] then map[]
    else
      var last := names[|names| - 1];
      KeptLevels(items, params, names[..|names| - 1])[last := KeptLevel(items, last, params)]
  }

  lemma {:induction false} KeptTables(items: seq<Item>, params: Option<Params>, names: seq<string>, n: string)
    requires AllDeclared(items, names)
    ensures n in KeptProperties(items, names) <==> n in names
    ensures n in KeptLevels(items, params, names) <==> n in names
    ensures n in names ==> Declared(items, n)
    ensures n in names ==> KeptProperties(items, names)[n] == PropertyFromItem(Kept(items, n))
    ensures n in names ==> KeptLevels(items, params, names)[n] == KeptLevel(items, n, params)
  {
    if names != [] {
      KeptTables(items, params, names[..|names| - 1], n);
      assert names == names[..|names| - 1] + [names[|names| - 1]];
    }
  }

  lemma NamesDeclared(items: seq<Item>)
    ensures AllDeclared(items, Names(items))
  {
    forall i | 0 <= i < |Names(items)| ensures Declared(items, Names(items)[i]) {
      assert Names(items)[i] in Names(items);
      NamesIn(items, Names(items)[i]);
    }
  }

  /** What the loop over the merged entries publishes. */
  function FromItems(items: seq<Item>, params: Option<Params>): (t: Translated)
    ensures t.properties.Keys == t.levels.Keys
  {
    NamesDeclared(items);
    var kept, modes := KeptItems(items), InputModes(KeptItems(items));
    var properties, levels := KeptProperties(items, Names(items)), KeptLevels(items, params, Names(items));
    assert properties.Keys == levels.Keys by {
      forall n ensures n in properties <==> n in levels {
        KeptTables(items, params, Names(items), n);
      }
    }
    Translated(properties, levels, map[], if modes.Some? then modes.value.always else RequiredFields(kept),
               modes, Defaults(kept))
  }

  /** The inputs only `/params` knows about. */
  function AddParams(t: Translated, specs: Dict<Spec>, params: Option<Params>): (r: Translated)
    requires t.properties.Keys == t.levels.Keys
    ensures r.properties.Keys == r.levels.Keys
    ensures forall k | k in t.properties :: k in r.properties && r.properties[k] == t.properties[k] && r.levels[k] == t.levels[k]
    ensures r.(properties := t.properties, levels := t.levels) == t
    decreases specs
  {
    if specs == [] then t
    else
      var name, spec := specs[0].key, specs[0].value;
      AddParams(if name in t.properties then t
                else t.(properties := t.properties[name := Property(ParamsType(spec), spec.default)],
                        levels := t.levels[name := Placement(params, name).GetOr(Squid)]),
                specs[1..], params)
  }

  /** What the entries of `input[]` and the inputs of `/params` publish, before any alias. */
  function Published(items: seq<Item>, params: Option<Params>): Translated {
    AddParams(FromItems(items, params), ParamsOnlySpecs(params), params)
  }

  /** A shadowed entry under the name it is published by. */
  datatype Alias = Alias(alias: string, name: string, level: Level, item: Item)

  function AliasLevel(r: Resolved, name: string, params: Option<Params>): Level
    requires IsShadowing(r)
  {
    ShadowedLevel(name, r.shadowed.value, r.kept, params)
  }

  function AliasSet(als: seq<Alias>): set<string> {
    set a | a in als :: a.alias
  }

  predicate AllShadowing(items: seq<Item>, names: seq<string>) {
    forall i | 0 <= i < |names| :: IsShadowing(Resolve(items, names[i]))
  }

  predicate DistinctAliases(als: seq<Alias>) {
    forall i, j | 0 <= i < j < |als| :: als[i].alias != als[j].alias
  }

  /** The next shadowed entry, under an alias no published name and no earlier alias has. */
  function NextAlias(items: seq<Item>, params: Option<Params>, name: string, taken: set<string>): Alias
    requires IsShadowing(Resolve(items, name))
  {
    var r := Resolve(items, name);
    var level := AliasLevel(r, name, params);
    Alias(AliasName(level, name, taken), name, level, r.shadowed.value)
  }

  function Aliases(items: seq<Item>, params: Option<Params>, names: seq<string>, taken: set<string>): (als: seq<Alias>)
    requires AllShadowing(items, names)
    ensures |als| == |names|
  {
    if names == [] then []
    else
      var before := Aliases(items, params, names[..|names| - 1], taken);
      before + [NextAlias(items, params, names[|names| - 1], taken + AliasSet(before))]
  }

  /** Alias number `i`, and the names it had to avoid. */
  lemma {:induction false} AliasIs(items: seq<Item>, params: Option<Params>, names: seq<string>, taken: set<string>, i: nat)
    requires AllShadowing(items, names) && i < |names|
    ensures var als := Aliases(items, params, names, taken);
      als[i] == NextAlias(items, params, names[i], taken + AliasSet(als[..i]))
  {
    var init := names[..|names| - 1];
    assert AllShadowing(items, init);
    var als, before := Aliases(items, params, names, taken), Aliases(items, params, init, taken);
    assert als == before + [als[|als| - 1]];
    if i < |init| {
      AliasIs(items, params, init, taken, i);
      assert als[..i] == before[..i];
      assert init[i] == names[i] && als[i] == before[i];
    } else {
      assert als[..i] == before;
    }
  }

  lemma AliasesAreDistinct(items: seq<Item>, params: Option<Params>, names: seq<string>, taken: set<string>)
    requires AllShadowing(items, names)
    ensures DistinctAliases(Aliases(items, params, names, taken))
  {
    var als := Aliases(items, params, names, taken);
    forall i, j | 0 <= i < j < |als| ensures als[i].alias != als[j].alias {
      AliasIs(items, params, names, taken, j);
      FirstFreeIsFree(AliasBase(als[j].level, names[j]), 1, taken + AliasSet(als[..j]));
      assert als[i] in als[..j];
    }
  }

  lemma ShadowNamesShadow(items: seq<Item>)
    ensures AllShadowing(items, ShadowNames(items))
  {
    forall i | 0 <= i < |ShadowNames(items)| ensures IsShadowing(Resolve(items, ShadowNames(items)[i])) {
      assert ShadowNames(items)[i] in ShadowNames(items);
      ShadowNamesIn(items, ShadowNames(items)[i]);
    }
  }

  function AllAliases(items: seq<Item>, params: Option<Params>): seq<Alias> {
    ShadowNamesShadow(items);
    Aliases(items, params, ShadowNames(items), Published(items, params).properties.Keys)
  }

  function AddAlias(t: Translated, a: Alias): Translated {
    t.(properties := t.properties[a.alias := PropertyFromItem(a.item)],
       levels := t.levels[a.alias := a.level],
       wireNames := t.wireNames[a.alias := a.name])
  }

  function AddAliases(t: Translated, als: seq<Alias>): Translated {
    if als == [] then t else AddAlias(AddAliases(t, als[..|als| - 1]), als[|als| - 1])
  }

  /** `translate_input_schema`. */
  function Translate(items: seq<Item>, params: Option<Params>): Translated {
    AddAliases(Published(items, params), AllAliases(items, params))
  }

  // ---- what the translation publishes ----

  lemma {:induction false} AliasAt(t: Translated, als: seq<Alias>, i: nat)
    requires DistinctAliases(als) && i < |als|
    ensures var r, a := AddAliases(t, als), als[i];
      && a.alias in r.wireNames && r.wireNames[a.alias] == a.name
      && a.alias in r.levels && r.levels[a.alias] == a.level
      && a.alias in r.properties && r.properties[a.alias] == PropertyFromItem(a.item)
  {
    if i < |als| - 1 {
      AliasAt(t, als[..|als| - 1], i);
      assert als[i].alias != als[|als| - 1].alias;
    }
  }

  lemma {:induction false} NotAnAlias(t: Translated, als: seq<Alias>, k: string)
    requires k !in AliasSet(als)
    ensures var r := AddAliases(t, als);
      && (k in r.wireNames <==> k in t.wireNames)
      && (k in r.levels <==> k in t.levels) && (k in t.levels ==> r.levels[k] == t.levels[k])
      && (k in r.properties <==> k in t.properties) && (k in t.properties ==> r.properties[k] == t.properties[k])
  {
    if als != [] {
      var last := als[|als| - 1];
      assert last in als && k != last.alias;
      NotAnAlias(t, als[..|als| - 1], k);
    }
  }

  lemma {:induction false} AliasesKeepTheRest(t: Translated, als: seq<Alias>)
    ensures var r := AddAliases(t, als);
      r.required == t.required && r.modes == t.modes && r.defaultsToFill == t.defaultsToFill
  {
    if als != [] {
      AliasesKeepTheRest(t, als[..|als| - 1]);
    }
  }

  lemma TranslateKeeps(items: seq<Item>, params: Option<Params>)
    ensures var t, t0 := Translate(items, params), FromItems(items, params);
      t.required == t0.required && t.modes == t0.modes && t.defaultsToFill == t0.defaultsToFill
  {
    AliasesKeepTheRest(Published(items, params), AllAliases(items, params));
  }

  /** The alias behind a wire name. */
  lemma FindAlias(items: seq<Item>, params: Option<Params>, a: string) returns (i: nat)
    requires a in Translate(items, params).wireNames
    ensures i < |AllAliases(items, params)| && AllAliases(items, params)[i].alias == a
  {
    var als := AllAliases(items, params);
    if a !in AliasSet(als) {
      NotAnAlias(Published(items, params), als, a);
      assert false;
    }
    i :| 0 <= i < |als| && als[i].alias == a;
  }

  lemma AliasFacts(items: seq<Item>, params: Option<Params>, i: nat)
    requires i < |AllAliases(items, params)|
    ensures var t, a, names := Translate(items, params), AllAliases(items, params)[i], ShadowNames(items);
      && |names| == |AllAliases(items, params)| && a.name == names[i]
      && IsShadowing(Resolve(items, a.name)) && a.item == Resolve(items, a.name).shadowed.value
      && a.level == AliasLevel(Resolve(items, a.name), a.name, params)
      && a.alias !in Published(items, params).properties
      && a.alias in t.wireNames && t.wireNames[a.alias] == a.name
      && a.alias in t.levels && t.levels[a.alias] == a.level
      && a.alias in t.properties && t.properties[a.alias] == PropertyFromItem(a.item)
  {
    var names, taken := ShadowNames(items), Published(items, params).properties.Keys;
    ShadowNamesShadow(items);
    AliasIs(items, params, names, taken, i);
    FirstFreeIsFree(AliasBase(AllAliases(items, params)[i].level, names[i]), 1, taken + AliasSet(AllAliases(items, params)[..i]));
    AliasesAreDistinct(items, params, names, taken);
    AliasAt(Published(items, params), AllAliases(items, params), i);
  }

  /** A name published without an alias keeps its plain name, its property and its level. */
  lemma PublishedKept(items: seq<Item>, params: Option<Params>, n: string)
    requires n in Published(items, params).properties
    ensures var t, t0 := Translate(items, params), Published(items, params);
      n in t.properties && n in t.levels && n !in t.wireNames
      && t.properties[n] == t0.properties[n] && t.levels[n] == t0.levels[n]
  {
    var als := AllAliases(items, params);
    forall a | a in als ensures a.alias != n {
      var i :| 0 <= i < |als| && als[i] == a;
      AliasFacts(items, params, i);
    }
    NotAnAlias(Published(items, params), als, n);
  }

  lemma DeclaredIsPublished(items: seq<Item>, params: Option<Params>, n: string)
    requires Declared(items, n)
    ensures var t0 := Published(items, params);
      n in t0.properties && t0.properties[n] == PropertyFromItem(Kept(items, n))
      && t0.levels[n] == KeptLevel(items, n, params)
  {
    NamesDeclared(items);
    NamesIn(items, n);
    KeptTables(items, params, Names(items), n);
  }

  /** A declared name is published as the entry that keeps it, at the level of that entry. */
  lemma DeclaredKept(items: seq<Item>, params: Option<Params>, n: string)
    requires Declared(items, n)
    ensures var t := Translate(items, params);
      n in t.properties && n in t.levels && n !in t.wireNames
      && t.properties[n] == PropertyFromItem(Kept(items, n)) && t.levels[n] == KeptLevel(items, n, params)
  {
    DeclaredIsPublished(items, params, n);
    PublishedKept(items, params, n);
  }

  /** An alias stands for a shadowed entry, at the level worked out for it; it is no name published
      otherwise, and it is not required. */
  lemma AliasSound(items: seq<Item>, params: Option<Params>, a: string)
    requires a in Translate(items, params).wireNames
    ensures var t := Translate(items, params);
      var n := t.wireNames[a];
      var r := Resolve(items, n);
      && IsShadowing(r) && a !in Published(items, params).properties
      && a in t.properties && t.properties[a] == PropertyFromItem(r.shadowed.value)
      && a in t.levels && t.levels[a] == AliasLevel(r, n, params)
      && a !in t.required
  {
    var i := FindAlias(items, params, a);
    AliasFacts(items, params, i);
    if a in Translate(items, params).required {
      RequiredAreDeclared(items, params, a);
      DeclaredIsPublished(items, params, a);
      assert false;
    }
  }

  lemma WireIs(items: seq<Item>, params: Option<Params>, a: string) returns (i: nat)
    requires a in Translate(items, params).wireNames
    ensures i < |AllAliases(items, params)| == |ShadowNames(items)|
    ensures AllAliases(items, params)[i].alias == a && Translate(items, params).wireNames[a] == ShadowNames(items)[i]
  {
    i := FindAlias(items, params, a);
    AliasFacts(items, params, i);
  }

  lemma DistinctAt(names: seq<string>, i: nat, j: nat)
    requires Distinct(names) && i < |names| && j < |names| && i != j
    ensures names[i] != names[j]
  {
  }

  /** No two aliases stand for one name. */
  lemma AliasesDiffer(items: seq<Item>, params: Option<Params>, a: string, b: string)
    requires a in Translate(items, params).wireNames && b in Translate(items, params).wireNames && a != b
    ensures Translate(items, params).wireNames[a] != Translate(items, params).wireNames[b]
  {
    var i := WireIs(items, params, a);
    var j := WireIs(items, params, b);
    DistinctAt(ShadowNames(items), i, j);
  }

  /** The entry a name is left shadowing is published under an alias. */
  lemma ShadowedIsPublished(items: seq<Item>, params: Option<Params>, n: string) returns (a: string)
    requires IsShadowing(Resolve(items, n))
    ensures var t := Translate(items, params); a in t.wireNames && t.wireNames[a] == n
  {
    var names := ShadowNames(items);
    ShadowNamesShadow(items);
    ShadowNamesIn(items, n);
    var i :| 0 <= i < |names| && names[i] == n;
    AliasFacts(items, params, i);
    a := AllAliases(items, params)[i].alias;
  }

  /** One domain for properties and levels. */
  lemma SameDomain(items: seq<Item>, params: Option<Params>)
    ensures Translate(items, params).properties.Keys == Translate(items, params).levels.Keys
  {
    OneDomain(Published(items, params), AllAliases(items, params));
  }

  lemma {:induction false} OneDomain(t: Translated, als: seq<Alias>)
    requires t.properties.Keys == t.levels.Keys
    ensures AddAliases(t, als).properties.Keys == AddAliases(t, als).levels.Keys == t.properties.Keys + AliasSet(als)
  {
    if als != [] {
      var init := als[..|als| - 1];
      OneDomain(t, init);
      assert als == init + [als[|als| - 1]];
      assert AliasSet(als) == AliasSet(init) + {als[|als| - 1].alias};
    }
  }

  lemma RequiredAreDeclared(items: seq<Item>, params: Option<Params>, f: string)
    requires f in Translate(items, params).required
    ensures Declared(items, f)
  {
    var kept := KeptItems(items);
    TranslateKeeps(items, params);
    var it: Item;
    if InputModes(kept).Some? {
      it := NamesWhereOnly(kept, AlwaysRequired, f);
    } else {
      it := NamesWhereOnly(kept, PlainRequired, f);
    }
    var i :| 0 <= i < |kept| && kept[i] == it;
    ResolveSound(items, Names(items)[i]);
  }
}
