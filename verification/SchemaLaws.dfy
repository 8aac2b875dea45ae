/** The published schema, read off the declared inputs: which entry keeps a name, as what and at which level it is
    published, what is required, and what an alias is called. */
module SchemaLaws {
  import opened Wrappers
  import opened Dicts
  import opened Text
  import opened SchemaTranslator

  // ---- which entry keeps a name ----

  /** No entry before this one counts for more: none of the name at all, or none that is required. */
  predicate First(items: seq<Item>, n: string, i: nat) {
    && i < |items| && items[i].name == n
    && if items[i].required then forall j | 0 <= j < i && items[j].name == n :: !items[j].required
       else forall j | 0 <= j < |items| && items[j].name == n :: !items[j].required && i <= j
  }

  /** The first required entry of a name keeps it, or the first one if none is required. */
  lemma {:induction false} KeptIsFirst(items: seq<Item>, n: string) returns (i: nat)
    requires Declared(items, n)
    ensures First(items, n, i) && items[i] == Kept(items, n)
  {
    var init, last := items[..|items| - 1], items[|items| - 1];
    assert items == init + [last];
    if Resolve(init, n).Absent? {
      ResolveSound(init, n);
      forall j | 0 <= j < |init| ensures items[j].name != n {
        assert items[j] == init[j] && init[j] in init;
      }
      i := |init|;
    } else {
      i := KeptIsFirst(init, n);
      assert forall j | 0 <= j < |init| :: items[j] == init[j];
      if last.name == n && last.required && !items[i].required {
        i := |init|;
      }
    }
  }

  // ---- as what, and at which level ----

  /** A declared input is published with its type, a string if it names none the table knows, and its default. */
  lemma DeclaredAs(items: seq<Item>, params: Option<Params>, n: string)
    requires Declared(items, n)
    ensures var t, it := Translate(items, params), Kept(items, n);
      && n in t.properties && t.properties[n].default == it.default
      && t.properties[n].kind == Some(if it.kind.Some? && it.kind.value.Known? then it.kind.value.kind else StringKind)
  {
    DeclaredKept(items, params, n);
  }

  predicate InTaskSection(params: Option<Params>, n: string) {
    params.Some? && n in params.value.task
  }

  predicate InToggles(params: Option<Params>, n: string) {
    params.Some? && exists e | e in params.value.squid :: e.Toggles? && HasKey(e.toggles, n)
  }

  predicate InSettings(params: Option<Params>, n: string) {
    params.Some? && exists e | e in params.value.squid :: e.Setting? && e.name == n
  }

  lemma ListsIs(params: Option<Params>, n: string)
    ensures Lists(params, Task, n) <==> InTaskSection(params, n)
    ensures Lists(params, Function, n) <==> InToggles(params, n)
    ensures Lists(params, Squid, n) <==> InSettings(params, n)
  {
  }

  lemma PlacementIs(params: Option<Params>, n: string)
    ensures Placement(params, n) ==
            if InTaskSection(params, n) then Some(Task)
            else if InToggles(params, n) then Some(Function)
            else if InSettings(params, n) then Some(Squid)
            else None
  {
    ListsIs(params, n);
    hide Lists, InTaskSection, InToggles, InSettings;
    assert forall level :: level in LevelsFromParams(params, n) <==> level in {Task, Squid, Function} && Lists(params, level, n);
  }

  /** Of the sections of `/params` that list an input the task one claims it first, then the toggles; an input
      none lists stays at its declared level, the task's by default; and so does one that shadows another. */
  lemma DeclaredAt(items: seq<Item>, params: Option<Params>, n: string)
    requires Declared(items, n)
    ensures var t, it := Translate(items, params), Kept(items, n);
      var own := if it.level.Some? then it.level.value else Task;
      n in t.levels && t.levels[n] ==
        if Resolve(items, n).shadowed.Some? then own
        else if InTaskSection(params, n) then Task
        else if InToggles(params, n) then Function
        else if InSettings(params, n) then Squid
        else own
  {
    hide Translate, Placement, InTaskSection, InToggles, InSettings, Resolve;
    DeclaredKept(items, params, n);
    PlacementIs(params, n);
  }

  // ---- aliases ----

  function LevelWord(level: Level): string {
    match level
    case Task => "task"
    case Squid => "squid"
    case Cluster => "squid"
    case Function => "function"
    case OtherLevel(name) => name
  }

  /** An alias is the level, an underscore and the API's name, and a number if that alone was taken. */
  lemma AliasIsNamed(items: seq<Item>, params: Option<Params>, a: string) returns (k: nat)
    requires a in Translate(items, params).wireNames
    ensures var t := Translate(items, params);
      a in t.levels && k >= 1 &&
      a == LevelWord(t.levels[a]) + "_" + t.wireNames[a] + if k == 1 then "" else "_" + OfNat(k)
  {
    var i := FindAlias(items, params, a);
    AliasFacts(items, params, i);
    var names, taken := ShadowNames(items), Published(items, params).properties.Keys;
    ShadowNamesShadow(items);
    AliasIs(items, params, names, taken, i);
    var alias := AllAliases(items, params)[i];
    k := FirstFreeNumber(AliasBase(alias.level, names[i]), 1, taken + AliasSet(AllAliases(items, params)[..i]));
    hide Translate, AllAliases, Published;
    AliasBaseIs(alias.level, names[i]);
  }

  lemma AliasBaseIs(level: Level, n: string)
    ensures AliasBase(level, n) == LevelWord(level) + "_" + n
  {
  }

  // ---- what is required ----

  lemma {:induction false} GroupNamesIff(items: seq<Item>, g: string)
    ensures g in GroupNames(items) <==> exists it | it in items :: it.required && it.group == Some(g)
  {
    if items != [] {
      var init, last := items[..|items| - 1], items[|items| - 1];
      assert items == init + [last];
      GroupNamesIff(init, g);
    }
  }

  lemma {:induction false} GroupNamesOnce(items: seq<Item>)
    ensures forall i, j | 0 <= i < j < |GroupNames(items)| :: GroupNames(items)[i] != GroupNames(items)[j]
  {
    if items != [] {
      GroupNamesOnce(items[..|items| - 1]);
    }
  }

  /** The entry keeps its name and is required. */
  ghost predicate Demanded(items: seq<Item>, it: Item) {
    Declared(items, it.name) && Kept(items, it.name) == it && it.required
  }

  /** Two groups have required entries: the input comes in alternatives. */
  ghost predicate Alternatives(items: seq<Item>) {
    exists a, b :: Demanded(items, a) && Demanded(items, b) && a.group.Some? && b.group.Some? && a.group != b.group
  }

  lemma KeptItemsIff(items: seq<Item>, it: Item)
    ensures it in KeptItems(items) && it.required <==> Demanded(items, it)
  {
    var kept, names := KeptItems(items), Names(items);
    if Declared(items, it.name) && Kept(items, it.name) == it {
      NamesIn(items, it.name);
      var i :| 0 <= i < |names| && names[i] == it.name;
      assert kept[i] == it;
    }
    if it in kept {
      var i :| 0 <= i < |kept| && kept[i] == it;
      ResolveSound(items, names[i]);
    }
  }

  /** There are input modes exactly when there are alternatives. */
  lemma ModesIff(items: seq<Item>, params: Option<Params>)
    ensures Translate(items, params).modes.Some? <==> Alternatives(items)
  {
    TranslateKeeps(items, params);
    hide Translate;
    var kept := KeptItems(items);
    var gs := GroupNames(kept);
    forall it ensures it in kept && it.required <==> Demanded(items, it) {
      KeptItemsIff(items, it);
    }
    forall g ensures g in gs <==> exists it | it in kept :: it.required && it.group == Some(g) {
      GroupNamesIff(kept, g);
    }
    GroupNamesOnce(kept);
    if |gs| >= 2 {
      assert gs[0] in gs && gs[1] in gs;
      var a :| a in kept && a.required && a.group == Some(gs[0]);
      var b :| b in kept && b.required && b.group == Some(gs[1]);
      assert Demanded(items, a) && Demanded(items, b);
    }
    if Alternatives(items) {
      var a, b :| Demanded(items, a) && Demanded(items, b) && a.group.Some? && b.group.Some? && a.group != b.group;
      assert a in kept && b in kept;
      assert a.group.value in gs && b.group.value in gs;
    }
  }

  lemma {:induction false} NamesWhereIff(items: seq<Item>, p: Item -> bool, f: string)
    ensures f in NamesWhere(items, p) <==> exists it | it in items :: p(it) && it.name == f
  {
    if items != [] {
      var init, last := items[..|items| - 1], items[|items| - 1];
      assert items == init + [last];
      NamesWhereIff(init, p, f);
    }
  }

  /** A name is required exactly when its entry is and no default stands in for it; where there are
      alternatives, only outside of them. */
  lemma RequiredIff(items: seq<Item>, params: Option<Params>, f: string)
    ensures f in Translate(items, params).required <==>
            exists it :: Demanded(items, it) && it.name == f
                         && if it.group.Some? then !Alternatives(items) else it.default.None?
  {
    TranslateKeeps(items, params);
    ModesIff(items, params);
    hide Translate;
    var kept := KeptItems(items);
    forall it ensures it in kept && it.required <==> Demanded(items, it) {
      KeptItemsIff(items, it);
    }
    NamesWhereIff(kept, AlwaysRequired, f);
    NamesWhereIff(kept, PlainRequired, f);
  }

  lemma {:induction false} DefaultsAre(items: seq<Item>, e: Entry<Json>)
    ensures e in Defaults(items) <==>
            exists it | it in items :: it.required && it.group.None? && it.default == Some(e.value) && it.name == e.key
  {
    if items != [] {
      var init, last := items[..|items| - 1], items[|items| - 1];
      assert items == init + [last];
      DefaultsAre(init, e);
    }
  }

  /** The defaults to fill in are those of the required entries outside any group. */
  lemma FilledInIff(items: seq<Item>, params: Option<Params>, e: Entry<Json>)
    ensures e in Translate(items, params).defaultsToFill <==>
            exists it :: Demanded(items, it) && it.group.None? && it.default == Some(e.value) && it.name == e.key
  {
    TranslateKeeps(items, params);
    hide Translate;
    var kept := KeptItems(items);
    forall it ensures it in kept && it.required <==> Demanded(items, it) {
      KeptItemsIff(items, it);
    }
    DefaultsAre(kept, e);
  }

  /** Each alternative asks for the required names of one group, all of them, and each group has one. */
  lemma EitherIff(items: seq<Item>, params: Option<Params>, f: string)
    requires Alternatives(items)
    ensures var t := Translate(items, params);
      && t.modes.Some?
      && (forall fields | fields in t.modes.value.either :: exists g :: AsksFor(items, g, fields, f))
      && (forall g | (exists it :: Demanded(items, it) && it.group == Some(g)) ::
            exists fields | fields in t.modes.value.either :: AsksFor(items, g, fields, f))
      && (f in t.modes.value.always <==> f in t.required)
  {
    TranslateKeeps(items, params);
    ModesIff(items, params);
    hide Translate;
    var kept := KeptItems(items);
    var gs, either := GroupNames(kept), Either(kept);
    forall it ensures it in kept && it.required <==> Demanded(items, it) {
      KeptItemsIff(items, it);
    }
    forall i | 0 <= i < |gs| ensures AsksFor(items, gs[i], either[i], f) {
      NamesWhereIff(kept, RequiredIn(gs[i]), f);
    }
    forall g | exists it :: Demanded(items, it) && it.group == Some(g)
      ensures exists fields | fields in either :: AsksFor(items, g, fields, f)
    {
      GroupNamesIff(kept, g);
      var i :| 0 <= i < |gs| && gs[i] == g;
      assert either[i] in either;
    }
  }

  /** The list has the name exactly when a required entry of the group has. */
  ghost predicate AsksFor(items: seq<Item>, g: string, fields: seq<string>, f: string) {
    f in fields <==> exists it :: Demanded(items, it) && it.group == Some(g) && it.name == f
  }
}
