/** The translation as the loops that fill its dictionaries and lists. */
module SchemaLoops {
  import opened Wrappers
  import opened Dicts
  import opened SchemaTranslator

  /** `at.get(name, set())`. */
  function LevelsAt(at: map<string, set<Level>>, name: string): set<Level> {
    if name in at then at[name] else {}
  }

  function AddLevel(at: map<string, set<Level>>, name: string, level: Level): map<string, set<Level>> {
    at[name := LevelsAt(at, name) + {level}]
  }

  /** `at` holds what `/params` says of every name, as far as it has been read. */
  ghost predicate Collected(at: map<string, set<Level>>, task: seq<string>, squid: seq<SquidEntry>) {
    forall n :: LevelsAt(at, n) == LevelsFromParams(Some(Params(task, squid)), n)
  }

  method LevelsFromParamsDict(params: Option<Params>) returns (at: map<string, set<Level>>)
    ensures forall n :: LevelsAt(at, n) == LevelsFromParams(params, n)
  {
    at := map[];
    if params.None? {
      return;
    }
    var Params(task, squid) := params.value;
    for i := 0 to |task|
      invariant Collected(at, task[..i], [])
    {
      at := AddLevel(at, task[i], Task);
      TaskCollected(at, task, i);
    }
    assert task[..|task|] == task;
    for i := 0 to |squid|
      invariant Collected(at, task, squid[..i])
    {
      assert squid[..i + 1] == squid[..i] + [squid[i]];
      match squid[i]
      case Setting(name, _) =>
        at := AddLevel(at, name, Squid);
        SettingCollected(at, task, squid[..i], squid[i]);
      case Toggles(toggles) =>
        TogglesCollected(at, task, squid[..i], []);
        for j := 0 to |toggles|
          invariant Collected(at, task, squid[..i] + [Toggles(toggles[..j])])
        {
          at := AddLevel(at, toggles[j].key, Function);
          MoreToggles(at, task, squid[..i], toggles, j);
        }
        assert toggles[..|toggles|] == toggles;
    }
    assert squid[..|squid|] == squid;
  }

  lemma TaskCollected(at: map<string, set<Level>>, task: seq<string>, i: nat)
    requires i < |task|
    requires forall n :: LevelsAt(at, n) == LevelsFromParams(Some(Params(task[..i], [])), n) + if n == task[i] then {Task} else {}
    ensures Collected(at, task[..i + 1], [])
  {
    forall n ensures LevelsAt(at, n) == LevelsFromParams(Some(Params(task[..i + 1], [])), n) {
      assert task[..i + 1] == task[..i] + [task[i]];
    }
  }

  lemma SettingCollected(at: map<string, set<Level>>, task: seq<string>, squid: seq<SquidEntry>, e: SquidEntry)
    requires e.Setting?
    requires forall n :: LevelsAt(at, n) == LevelsFromParams(Some(Params(task, squid)), n) + if n == e.name then {Squid} else {}
    ensures Collected(at, task, squid + [e])
  {
    forall n ensures LevelsAt(at, n) == LevelsFromParams(Some(Params(task, squid + [e])), n) {
      assert e in squid + [e];
      assert forall x :: x in squid + [e] <==> x in squid || x == e;
    }
  }

  lemma TogglesCollected(at: map<string, set<Level>>, task: seq<string>, squid: seq<SquidEntry>, toggles: Dict<Option<Spec>>)
    requires toggles == [] && Collected(at, task, squid)
    ensures Collected(at, task, squid + [Toggles(toggles)])
  {
    var e := Toggles(toggles);
    forall n ensures LevelsAt(at, n) == LevelsFromParams(Some(Params(task, squid + [e])), n) {
      assert forall x :: x in squid + [e] <==> x in squid || x == e;
    }
  }

  lemma MoreToggles(at: map<string, set<Level>>, task: seq<string>, squid: seq<SquidEntry>, toggles: Dict<Option<Spec>>, j: nat)
    requires j < |toggles|
    requires forall n :: LevelsAt(at, n) == LevelsFromParams(Some(Params(task, squid + [Toggles(toggles[..j])])), n)
                                            + if n == toggles[j].key then {Function} else {}
    ensures Collected(at, task, squid + [Toggles(toggles[..j + 1])])
  {
    var e, e' := Toggles(toggles[..j]), Toggles(toggles[..j + 1]);
    forall n ensures LevelsAt(at, n) == LevelsFromParams(Some(Params(task, squid + [e'])), n) {
      assert HasKey(e'.toggles, n) <==> HasKey(e.toggles, n) || n == toggles[j].key by {
        assert toggles[..j + 1] == toggles[..j] + [toggles[j]];
        if n == toggles[j].key { assert e'.toggles[j].key == n; }
        if HasKey(e.toggles, n) {
          var i :| 0 <= i < j && e.toggles[i].key == n;
          assert e'.toggles[i].key == n;
        }
      }
      assert e in squid + [e] && e' in squid + [e'];
      assert forall x :: x in squid + [e] <==> x in squid || x == e;
      assert forall x :: x in squid + [e'] <==> x in squid || x == e';
    }
  }

  /** The merge as a dictionary of kept entries and one of shadowed entries. */
  function Recorded(seen: map<string, Item>, shadowed: map<string, Item>, n: string): Resolved {
    if n !in seen then Absent else Holds(seen[n], if n in shadowed then Some(shadowed[n]) else None)
  }

  ghost predicate AllRecorded(items: seq<Item>, seen: map<string, Item>, shadowed: map<string, Item>) {
    forall n :: Recorded(seen, shadowed, n) == Resolve(items, n)
  }

  lemma RecordedAt(items: seq<Item>, seen: map<string, Item>, shadowed: map<string, Item>, n: string)
    requires AllRecorded(items, seen, shadowed)
    ensures Recorded(seen, shadowed, n) == Resolve(items, n)
  {
  }

  /** One more entry changes what is recorded of its own name only. */
  lemma RecordedStep(items: seq<Item>, item: Item, seen: map<string, Item>, shadowed: map<string, Item>,
                     seen': map<string, Item>, shadowed': map<string, Item>)
    requires AllRecorded(items, seen, shadowed)
    requires forall n | n != item.name :: Recorded(seen', shadowed', n) == Recorded(seen, shadowed, n)
    requires Recorded(seen', shadowed', item.name) == MergeEntry(Recorded(seen, shadowed, item.name), item)
    ensures AllRecorded(items + [item], seen', shadowed')
  {
    assert (items + [item])[..|items|] == items;
    forall n ensures Recorded(seen', shadowed', n) == Resolve(items + [item], n) {
      RecordedAt(items, seen, shadowed, n);
    }
  }

  method MergeEntries(items: seq<Item>)
    returns (order: seq<string>, seen: map<string, Item>, shadowOrder: seq<string>, shadowed: map<string, Item>)
    ensures order == Names(items) && shadowOrder == ShadowNames(items) && AllRecorded(items, seen, shadowed)
  {
    order, seen, shadowOrder, shadowed := [], map[], [], map[];
    for i := 0 to |items|
      invariant order == Names(items[..i]) && shadowOrder == ShadowNames(items[..i])
      invariant shadowed.Keys <= seen.Keys
      invariant AllRecorded(items[..i], seen, shadowed)
    {
      var item := items[i];
      assert items[..i + 1] == items[..i] + [item] && (items[..i] + [item])[..i] == items[..i];
      ghost var seen0, shadowed0 := seen, shadowed;
      NamesIn(items[..i], item.name);
      ShadowNamesIn(items[..i], item.name);
      RecordedAt(items[..i], seen, shadowed, item.name);
      if item.name !in seen {
        seen, order := seen[item.name := item], order + [item.name];
      } else {
        var previous := seen[item.name];
        var keep, drop := previous, item;
        if Outranks(item, previous) {
          keep, drop := item, previous;
        }
        seen := seen[item.name := keep];
        if NormalizedLevel(drop) != NormalizedLevel(keep) {
          if item.name !in shadowed {
            shadowOrder := shadowOrder + [item.name];
          }
          shadowed := shadowed[item.name := drop];
        }
      }
      RecordedStep(items[..i], item, seen0, shadowed0, seen, shadowed);
      RecordedAt(items[..i + 1], seen, shadowed, item.name);
    }
    assert items[..|items|] == items;
  }

  method InputModesLoop(items: seq<Item>) returns (modes: Option<Modes>)
    ensures modes == InputModes(items)
  {
    var order: seq<string>, groups: map<string, seq<string>>, always: seq<string> := [], map[], [];
    for i := 0 to |items|
      invariant order == GroupNames(items[..i])
      invariant forall g :: (if g in groups then groups[g] else []) == GroupFields(items[..i], g)
      invariant forall g :: g in groups <==> g in order
      invariant always == AlwaysFields(items[..i])
    {
      assert items[..i + 1][..i] == items[..i];
      var it := items[i];
      if !it.required || (it.group.None? && it.default.Some?) {
      } else if it.group.Some? {
        var g := it.group.value;
        if g !in groups {
          order := order + [g];
        }
        groups := groups[g := (if g in groups then groups[g] else []) + [it.name]];
      } else {
        always := always + [it.name];
      }
    }
    assert items[..|items|] == items;
    if |order| < 2 {
      return None;
    }
    var either := seq(|order|, i requires 0 <= i < |order| => if order[i] in groups then groups[order[i]] else []);
    assert either == Either(items);
    return Some(Modes(either, always));
  }

  /** `translate_input_schema`: the entries of `input[]`, then the inputs only `/params` knows, then the
      shadowed entries. */
  method TranslateInputSchema(items: seq<Item>, params: Option<Params>) returns (t: Translated)
    ensures t == Translate(items, params)
  {
    var order, seen, shadowOrder, shadowed := MergeEntries(items);
    ShadowNamesShadow(items);
    t := PublishItems(items, params, order, seen, shadowed);
    t := PublishParams(t, ParamsOnlySpecs(params), params);
    t := PublishAliases(items, params, t, seen, shadowOrder, shadowed);
  }

  /** The loop over the inputs only `/params` knows about. */
  method PublishParams(published: Translated, specs: Dict<Spec>, params: Option<Params>) returns (t: Translated)
    requires published.properties.Keys == published.levels.Keys
    ensures t == AddParams(published, specs, params)
  {
    t := published;
    assert specs[0..] == specs;
    for i := 0 to |specs|
      invariant t.properties.Keys == t.levels.Keys
      invariant AddParams(t, specs[i..], params) == AddParams(published, specs, params)
    {
      var name, spec := specs[i].key, specs[i].value;
      assert specs[i..][1..] == specs[i + 1..];
      if name !in t.properties {
        t := t.(properties := t.properties[name := Property(ParamsType(spec), spec.default)],
                levels := t.levels[name := Placement(params, name).GetOr(Squid)]);
      }
    }
  }

  /** The loop over the shadowed entries. */
  method PublishAliases(items: seq<Item>, params: Option<Params>, published: Translated, seen: map<string, Item>,
                        order: seq<string>, shadowed: map<string, Item>) returns (t: Translated)
    requires AllShadowing(items, order) && published.properties.Keys == published.levels.Keys
    requires AllRecorded(items, seen, shadowed)
    ensures t == AddAliases(published, Aliases(items, params, order, published.properties.Keys))
  {
    t := published;
    ghost var als: seq<Alias> := [];
    assert AddAliases(published, []) == published;
    for i := 0 to |order|
      invariant als == Aliases(items, params, order[..i], published.properties.Keys)
      invariant t == AddAliases(published, als)
    {
      var name := order[i];
      assert order[..i + 1][..i] == order[..i];
      RecordedAt(items, seen, shadowed, name);
      var level := ShadowedLevel(name, shadowed[name], seen[name], params);
      OneDomain(published, als);
      ghost var a := NextAlias(items, params, name, published.properties.Keys + AliasSet(als));
      assert (als + [a])[..|als|] == als;
      var alias := SearchAlias(level, name, t.properties.Keys);
      t := t.(properties := t.properties[alias := PropertyFromItem(shadowed[name])],
              levels := t.levels[alias := level],
              wireNames := t.wireNames[alias := name]);
      als := als + [a];
    }
    assert order[..|order|] == order;
  }

  lemma KeptTablesStep(items: seq<Item>, params: Option<Params>, names: seq<string>, name: string)
    requires AllDeclared(items, names) && Declared(items, name)
    ensures AllDeclared(items, names + [name])
    ensures KeptProperties(items, names + [name]) == KeptProperties(items, names)[name := PropertyFromItem(Kept(items, name))]
    ensures KeptLevels(items, params, names + [name]) == KeptLevels(items, params, names)[name := KeptLevel(items, name, params)]
  {
    assert (names + [name])[..|names|] == names;
  }

  /** The loop over the merged entries: their properties and levels, and what the schema requires or
      fills in. */
  method PublishItems(items: seq<Item>, params: Option<Params>, order: seq<string>, seen: map<string, Item>,
                      shadowed: map<string, Item>) returns (t: Translated)
    requires order == Names(items) && AllRecorded(items, seen, shadowed)
    ensures t == FromItems(items, params)
  {
    var properties: map<string, Property>, levels: map<string, Level> := map[], map[];
    var required: seq<string>, defaults: Dict<Json>, kept: seq<Item> := [], [], [];
    NamesDeclared(items);
    ghost var all := KeptItems(items);
    for i := 0 to |order|
      invariant kept == all[..i] && required == RequiredFields(kept) && defaults == Defaults(kept)
      invariant properties == KeptProperties(items, order[..i])
      invariant levels == KeptLevels(items, params, order[..i])
    {
      var name := order[i];
      RecordedAt(items, seen, shadowed, name);
      assert order[..i + 1] == order[..i] + [name] && all[..i + 1] == all[..i] + [all[i]];
      var item := seen[name];
      assert all[i] == item == Kept(items, name);
      KeptName(items, name);
      properties, levels := PublishItem(items, params, order[..i], name, item, name in shadowed, properties, levels);
      required, defaults := Require(kept, item, required, defaults);
      kept := kept + [item];
    }
    assert order[..|order|] == order && all[..|order|] == all;
    var modes := InputModesLoop(kept);
    t := Translated(properties, levels, map[], if modes.Some? then modes.value.always else required, modes, defaults);
  }

  /** The level of an entry that shadows another is its own, else the API's placement of the name. */
  method PublishItem(items: seq<Item>, params: Option<Params>, ghost names: seq<string>, name: string, item: Item,
                     shadowing: bool, properties: map<string, Property>, levels: map<string, Level>)
    returns (properties': map<string, Property>, levels': map<string, Level>)
    requires AllDeclared(items, names) && Declared(items, name)
    requires item == Kept(items, name) && shadowing == IsShadowing(Resolve(items, name))
    requires properties == KeptProperties(items, names) && levels == KeptLevels(items, params, names)
    ensures AllDeclared(items, names + [name])
    ensures properties' == KeptProperties(items, names + [name])
    ensures levels' == KeptLevels(items, params, names + [name])
  {
    KeptTablesStep(items, params, names, name);
    properties' := properties[name := PropertyFromItem(item)];
    levels' := levels[name := if shadowing then DeclaredLevel(item) else Placement(params, name).GetOr(DeclaredLevel(item))];
  }

  /** A required entry with a default and no group is filled in; any other required entry is asked for. */
  method Require(kept: seq<Item>, item: Item, required: seq<string>, defaults: Dict<Json>)
    returns (required': seq<string>, defaults': Dict<Json>)
    requires required == RequiredFields(kept) && defaults == Defaults(kept)
    ensures required' == RequiredFields(kept + [item]) && defaults' == Defaults(kept + [item])
  {
    required', defaults' := required, defaults;
    assert (kept + [item])[..|kept|] == kept;
    if item.required {
      if item.default.Some? && item.group.None? {
        defaults' := defaults + [Entry(item.name, item.default.value)];
      } else {
        required' := required + [item.name];
      }
    }
  }
}
