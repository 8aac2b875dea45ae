/** The inputs that only `/params` describes: which are published, where, and as what. */
module Described {
  import opened Wrappers
  import opened Dicts
  import opened SchemaTranslator
  import opened Routing
  import opened ParamsPlacement
  import V = Validation

  /** The squid section of `/params` describes the name, as a setting or as a toggle. */
  ghost predicate Describes(params: Option<Params>, n: string, spec: Spec) {
    params.Some? && exists e | e in params.value.squid :: EntryDescribes(e, n, spec)
  }

  predicate EntryDescribes(e: SquidEntry, n: string, spec: Spec) {
    match e
    case Setting(name, s) => name == n && s == Some(spec)
    case Toggles(toggles) => Entry(n, Some(spec)) in toggles
  }

  ghost predicate Known(params: Option<Params>, n: string) {
    exists spec :: Describes(params, n, spec)
  }

  /** The type the spec declares, or that of its default. */
  function KindOf(spec: Spec): Option<Kind> {
    match spec.kind
    case Some(Known(kind)) => Some(kind)
    case _ => ParamsType(Spec(None, spec.default))
  }

  // ---- what the loops collect ----

  lemma {:induction false} PutIs(d: Dict<Spec>, k: string, v: Spec, x: Entry<Spec>)
    requires UniqueKeys(d)
    ensures x in Put(d, k, v) <==> x == Entry(k, v) || (x.key != k && x in d)
    ensures UniqueKeys(Put(d, k, v))
  {
    PutUnique(d, k, v);
    if d != [] {
      assert d == [d[0]] + d[1..];
      if d[0].key == k {
        assert forall i | 0 <= i < |d[1..]| :: d[1..][i] == d[i + 1] && d[i + 1].key != k;
      } else {
        UniqueTail(d);
        PutIs(d[1..], k, v, x);
      }
    }
  }

  /** Toggles are put down one after another: an entry is one of theirs, or one from before. */
  lemma {:induction false} TogglesCollected(specs: Dict<Spec>, toggles: Dict<Option<Spec>>, n: string)
    requires UniqueKeys(specs)
    ensures var r := ToggleSpecs(specs, toggles);
      && UniqueKeys(r)
      && (forall spec | Entry(n, spec) in r :: Entry(n, Some(spec)) in toggles || Entry(n, spec) in specs)
      && (HasKey(r, n) <==> HasKey(specs, n) || exists spec :: Entry(n, Some(spec)) in toggles)
    decreases toggles
  {
    if toggles != [] {
      var (k, s) := (toggles[0].key, toggles[0].value);
      var more := if s.Some? then Put(specs, k, s.value) else specs;
      assert toggles == [toggles[0]] + toggles[1..];
      if s.Some? {
        forall spec ensures Entry(n, spec) in more <==> (n == k && spec == s.value) || (n != k && Entry(n, spec) in specs) {
          PutIs(specs, k, s.value, Entry(n, spec));
        }
        PutIs(specs, k, s.value, Entry(k, s.value));
        PutHasKey(specs, k, s.value, n);
      }
      TogglesCollected(more, toggles[1..], n);
      assert (exists spec :: Entry(n, Some(spec)) in toggles) <==>
             (n == k && s.Some?) || exists spec :: Entry(n, Some(spec)) in toggles[1..] by {
        if n == k && s.Some? {
          assert Entry(n, Some(s.value)) == toggles[0];
        }
      }
    }
  }

  lemma {:induction false} SquidCollected(specs: Dict<Spec>, squid: seq<SquidEntry>, n: string)
    requires UniqueKeys(specs)
    ensures var r := SquidSpecs(specs, squid);
      && UniqueKeys(r)
      && (forall spec | Entry(n, spec) in r :: (exists e | e in squid :: EntryDescribes(e, n, spec)) || Entry(n, spec) in specs)
      && (HasKey(r, n) <==> HasKey(specs, n) || exists spec, e | e in squid :: EntryDescribes(e, n, spec))
    decreases squid
  {
    if squid != [] {
      var head, more := squid[0], SquidSpecs(specs, [squid[0]]);
      EntryCollected(specs, head, n);
      SquidCollected(more, squid[1..], n);
      assert squid == [head] + squid[1..];
      assert SquidSpecs(more, squid[1..]) == SquidSpecs(specs, squid) by {
        assert SquidSpecs(specs, [head]) == SquidSpecs(match head
                                                       case Toggles(toggles) => ToggleSpecs(specs, toggles)
                                                       case Setting(name, spec) => if spec.Some? then Put(specs, name, spec.value) else specs, []);
      }
      if spec: Spec, e: SquidEntry :| e in squid && EntryDescribes(e, n, spec) {
        assert e == head || e in squid[1..];
      }
    }
  }

  lemma EntryCollected(specs: Dict<Spec>, e: SquidEntry, n: string)
    requires UniqueKeys(specs)
    ensures var r := SquidSpecs(specs, [e]);
      && UniqueKeys(r)
      && (forall spec | Entry(n, spec) in r :: EntryDescribes(e, n, spec) || Entry(n, spec) in specs)
      && (HasKey(r, n) <==> HasKey(specs, n) || exists spec :: EntryDescribes(e, n, spec))
  {
    assert [e][1..] == [];
    match e
    case Toggles(toggles) => TogglesCollected(specs, toggles, n);
    case Setting(name, spec) =>
      if spec.Some? {
        forall s ensures Entry(n, s) in Put(specs, name, spec.value) ==> (n == name && s == spec.value) || Entry(n, s) in specs {
          PutIs(specs, name, spec.value, Entry(n, s));
        }
        PutUnique(specs, name, spec.value);
        PutHasKey(specs, name, spec.value, n);
        assert n == name ==> EntryDescribes(e, n, spec.value);
      }
  }

  // ---- what is published ----

  lemma KindOfIs(spec: Spec)
    ensures ParamsType(spec) == KindOf(spec)
  {
  }

  lemma {:induction false} AddedFromSpecs(t: Translated, specs: Dict<Spec>, params: Option<Params>, k: string)
    requires t.properties.Keys == t.levels.Keys && UniqueKeys(specs) && k !in t.properties
    ensures var r := AddParams(t, specs, params);
      && (k in r.properties <==> HasKey(specs, k))
      && (forall spec | Entry(k, spec) in specs :: k in r.properties && r.properties[k] == Property(KindOf(spec), spec.default))
    decreases specs
  {
    if specs != [] {
      var (name, spec) := (specs[0].key, specs[0].value);
      var t' := if name in t.properties then t
                else t.(properties := t.properties[name := Property(ParamsType(spec), spec.default)],
                        levels := t.levels[name := Placement(params, name).GetOr(Squid)]);
      assert specs == [specs[0]] + specs[1..];
      HasKeyCons(specs[0], specs[1..], k);
      UniqueTail(specs);
      assert AddParams(t, specs, params) == AddParams(t', specs[1..], params);
      if name == k {
        KindOfIs(spec);
        forall s | Entry(k, s) in specs ensures s == spec {
        }
      } else {
        AddedFromSpecs(t', specs[1..], params, k);
      }
    }
  }

  /** What `/params` describes, under one name. */
  lemma SpecsDescribe(params: Option<Params>, n: string)
    ensures var specs := ParamsOnlySpecs(params);
      && UniqueKeys(specs) && (HasKey(specs, n) <==> Known(params, n))
      && forall spec | Entry(n, spec) in specs :: Describes(params, n, spec)
  {
    if params.Some? {
      SquidCollected([], params.value.squid, n);
      if Known(params, n) {
        var spec :| Describes(params, n, spec);
        var e :| e in params.value.squid && EntryDescribes(e, n, spec);
        assert exists spec, e | e in params.value.squid :: EntryDescribes(e, n, spec);
      }
      if spec: Spec, e: SquidEntry :| e in params.value.squid && EntryDescribes(e, n, spec) {
        assert Describes(params, n, spec);
      }
      forall spec | Entry(n, spec) in ParamsOnlySpecs(params) ensures Describes(params, n, spec) {
      }
    }
  }

  lemma DeclaredOrNot(items: seq<Item>, params: Option<Params>, k: string)
    ensures k in FromItems(items, params).properties <==> Declared(items, k)
  {
    NamesDeclared(items);
    NamesIn(items, k);
    KeptTables(items, params, Names(items), k);
  }

  /** Published are the declared inputs, the described ones, and the aliases; nothing else. */
  lemma PublishedIff(items: seq<Item>, params: Option<Params>, k: string)
    ensures var t := Translate(items, params);
      k in t.levels <==> Declared(items, k) || Known(params, k) || k in t.wireNames
  {
    var t, t0, als := Translate(items, params), Published(items, params), AllAliases(items, params);
    OneDomain(t0, als);
    DeclaredOrNot(items, params, k);
    SpecsDescribe(params, k);
    if !Declared(items, k) {
      AddedFromSpecs(FromItems(items, params), ParamsOnlySpecs(params), params, k);
    }
    if k in t.wireNames {
      AliasSound(items, params, k);
    }
    if k in AliasSet(als) {
      var i :| 0 <= i < |als| && als[i].alias == k;
      AliasFacts(items, params, i);
    }
  }

  /** An input that no item declares and `/params` describes is published under its own name, at a level the
      API lists it at, with the type and the default of what describes it. */
  lemma DescribedIsPublished(items: seq<Item>, params: Option<Params>, n: string) returns (spec: Spec)
    requires Known(params, n) && !Declared(items, n)
    ensures Describes(params, n, spec)
    ensures var t := Translate(items, params);
      && n in t.properties && n in t.levels && n !in t.wireNames
      && t.levels[n] in LevelsFromParams(params, n) && t.properties[n] == Property(KindOf(spec), spec.default)
  {
    SpecsDescribe(params, n);
    DeclaredOrNot(items, params, n);
    var specs := ParamsOnlySpecs(params);
    AddedFromSpecs(FromItems(items, params), specs, params, n);
    var i :| 0 <= i < |specs| && specs[i].key == n;
    spec := specs[i].value;
    assert Entry(n, spec) in specs by { assert specs[i] == Entry(n, spec); }
    PublishedKept(items, params, n);
    DescribedIsListed(params, n, spec);
    ListedLevels(params, n);
    LevelOfOther(items, params, n);
  }

  lemma DescribedIsListed(params: Option<Params>, n: string, spec: Spec)
    requires Describes(params, n, spec)
    ensures LevelsFromParams(params, n) != {}
  {
    var e :| e in params.value.squid && EntryDescribes(e, n, spec);
    match e
    case Setting(_, _) =>
      assert Squid in LevelsFromParams(params, n);
    case Toggles(toggles) =>
      var i :| 0 <= i < |toggles| && toggles[i] == Entry(n, Some(spec));
      assert HasKey(toggles, n);
      assert Function in LevelsFromParams(params, n);
  }

  // ---- what it means for what is sent ----

  /** Each value of the input that is published or described, and that `/params` has a place for, is received
      at one of its places. */
  ghost predicate ReceivedAsListed(items: seq<Item>, params: Option<Params>, input: Dict<Json>) {
    var t := Translate(items, params);
    forall i | 0 <= i < |input| && (input[i].key in t.levels || Known(params, input[i].key))
               && LevelsFromParams(params, Wire(t, input[i].key)) != {} ::
      ReceivedAt(t, input, i, LevelsFromParams(params, Wire(t, input[i].key)))
  }

  ghost predicate ReceivedAt(t: Translated, input: Dict<Json>, i: nat, at: set<Level>)
    requires i < |input|
  {
    exists level | level in at ::
      var r := Received(t, input, BucketOf(level));
      Wire(t, input[i].key) in r && r[Wire(t, input[i].key)] == input[i].value
  }

  /** Of a crawler that declares its levels, every value of every input reaches a place where `/params` lists
      its name, if it lists it and the input is published or described: as long as it lists both entries of
      each name that has two, and no setting goes out as `functions` beside a toggle. */
  lemma RoutedAsListed(items: seq<Item>, params: Option<Params>, input: Dict<Json>)
    requires LevelsDeclared(items) && UniqueKeys(input)
    requires forall k, f :: !Overwrites(Translate(items, params), k, f)
    requires forall n :: AgreesOn(items, params, n)
    ensures ReceivedAsListed(items, params, input)
  {
    hide Translate, LevelsFromParams, Received, Overwrites, LevelsDeclared, AgreesOn, Known;
    RoutingLossless(items, params, input);
    PlacedAsListedIff(items, params);
    var t := Translate(items, params);
    forall i | 0 <= i < |input| && (input[i].key in t.levels || Known(params, input[i].key))
               && LevelsFromParams(params, Wire(t, input[i].key)) != {}
      ensures ReceivedAt(t, input, i, LevelsFromParams(params, Wire(t, input[i].key)))
    {
      PublishedIff(items, params, input[i].key);
      assert PlacedAsListed(items, params, input[i].key);
      assert Normalized(t.levels[input[i].key]) in LevelsFromParams(params, Wire(t, input[i].key));
      assert BucketOf(Normalized(t.levels[input[i].key])) == BucketOfKey(t, input[i].key);
    }
  }

  /** What is neither declared nor described nor an alias goes into the task row, even if `/params` lists it as
      a setting with a bare value. */
  lemma UndescribedGoesToTheRow(items: seq<Item>, params: Option<Params>, k: string, v: Json)
    requires !Declared(items, k) && !Known(params, k) && k !in Translate(items, params).wireNames
    ensures var t := Translate(items, params);
      TaskParams(t, [Entry(k, v)]) == map[k := v] && SquidParamsOf(t, [Entry(k, v)]) == map[]
  {
    PublishedIff(items, params, k);
    hide Translate;
    OneToTheRow(Translate(items, params), k, v);
  }

  lemma OneToTheRow(t: Translated, k: string, v: Json)
    requires k !in t.levels && k !in t.wireNames
    ensures TaskParams(t, [Entry(k, v)]) == map[k := v] && SquidParamsOf(t, [Entry(k, v)]) == map[]
  {
    var input := [Entry(k, v)];
    assert input[..|input| - 1] == [] && input[|input| - 1] == Entry(k, v);
    forall b: Bucket ensures Sent(t, input, b) == if b == TaskRow then map[k := v] else map[] {
    }
  }

  // ---- what it means for what is accepted ----

  /** A value that can stand in for the default: of its JSON type, or an integer for a number. */
  predicate LikeDefault(default: Json, v: Json) {
    match default
    case JNull => true
    case JBool(_) => v.JBool?
    case JInt(_) => v.JInt?
    case JReal(_) => v.JInt? || v.JReal?
    case JStr(_) => v.JStr?
    case JList(_) => v.JList?
    case JDict(_) => v.JDict?
  }

  /** A described input without a type of its own accepts exactly the values like its default, that one
      included, and refuses any other by name. */
  lemma AcceptsLikeItsDefault(items: seq<Item>, params: Option<Params>, n: string, spec: Spec, default: Json, v: Json)
    requires !Declared(items, n) && Describes(params, n, spec) && forall s | Describes(params, n, s) :: s == spec
    requires (spec.kind.None? || spec.kind.value.UnknownKind?) && spec.default == Some(default)
    ensures V.Errors([Entry(n, v)], Translate(items, params), false) == if LikeDefault(default, v) then [] else [V.WrongType(n)]
  {
    hide Translate, V.Errors, KindOf, LikeDefault, V.Fits, LevelsFromParams;
    var published := DescribedIsPublished(items, params, n);
    var t := Translate(items, params);
    OnlyTypeError(t, n, v);
    FitsLikeDefault(t, n, spec, default, v);
  }

  lemma FitsLikeDefault(t: Translated, n: string, spec: Spec, default: Json, v: Json)
    requires (spec.kind.None? || spec.kind.value.UnknownKind?) && spec.default == Some(default)
    requires n in t.properties && t.properties[n] == Property(KindOf(spec), Some(default))
    ensures V.Fits(Entry(n, v), t.properties) <==> LikeDefault(default, v)
  {
  }

  lemma OnlyTypeError(t: Translated, n: string, v: Json)
    ensures V.Errors([Entry(n, v)], t, false) == if V.Fits(Entry(n, v), t.properties) then [] else [V.WrongType(n)]
  {
    var values := [Entry(n, v)];
    assert values[..|values| - 1] == [] && values[|values| - 1] == Entry(n, v);
    V.WellTypedIff(Entry(n, v), t.properties);
    assert V.TypeErrors([], t.properties) == [];
    assert V.TypeErrors(values, t.properties) == if V.WellTyped(values[0], t.properties) then [] else [V.WrongType(n)];
  }
}
