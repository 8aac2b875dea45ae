/** Local validation of a `run_scraper` input against the translated schema. */
module Validation {
  import opened Wrappers
  import opened Dicts
  import opened SchemaTranslator
  import opened Routing

  datatype Error = Missing(name: string) | NoCompleteSet | WrongType(name: string)

  /** `_PY_TYPE_OK`: a boolean is not a number. */
  predicate TypeOk(kind: Kind, v: Json) {
    match kind
    case StringKind => v.JStr?
    case IntegerKind => v.JInt?
    case NumberKind => v.JInt? || v.JReal?
    case BooleanKind => v.JBool?
    case ArrayKind => v.JList?
    case ObjectKind => v.JDict?
  }

  predicate AllPresent(values: Dict<Json>, names: seq<string>) {
    forall f | f in names :: HasKey(values, f)
  }

  function MissingErrors(values: Dict<Json>, required: seq<string>): seq<Error>
  {
    if required == [] then []
    else
      var before, last := MissingErrors(values, required[..|required| - 1]), required[|required| - 1];
      if HasKey(values, last) then before else before + [Missing(last)]
  }

  predicate SomeSetComplete(values: Dict<Json>, either: seq<seq<string>>) {
    exists g | g in either :: AllPresent(values, g)
  }

  function ModeErrors(values: Dict<Json>, modes: Option<Modes>): seq<Error> {
    if modes.Some? && modes.value.either != [] && !SomeSetComplete(values, modes.value.either) then [NoCompleteSet] else []
  }

  predicate WellTyped(e: Entry<Json>, properties: map<string, Property>) {
    e.key in properties && properties[e.key].kind.Some? ==> TypeOk(properties[e.key].kind.value, e.value)
  }

  function TypeErrors(values: Dict<Json>, properties: map<string, Property>): seq<Error>
  {
    if values == [] then []
    else
      var before, last := TypeErrors(values[..|values| - 1], properties), values[|values| - 1];
      if WellTyped(last, properties) then before else before + [WrongType(last.key)]
  }

  function Errors(values: Dict<Json>, t: Translated, checkRequired: bool): seq<Error> {
    (if checkRequired then MissingErrors(values, t.required) + ModeErrors(values, t.modes) else [])
    + TypeErrors(values, t.properties)
  }

  lemma {:induction false} MissingErrorsIff(values: Dict<Json>, required: seq<string>)
    ensures MissingErrors(values, required) == [] <==> AllPresent(values, required)
  {
    if required != [] {
      MissingErrorsIff(values, required[..|required| - 1]);
      assert required == required[..|required| - 1] + [required[|required| - 1]];
    }
  }

  lemma {:induction false} TypeErrorsIff(values: Dict<Json>, properties: map<string, Property>)
    ensures TypeErrors(values, properties) == [] <==> forall e | e in values :: WellTyped(e, properties)
  {
    if values != [] {
      TypeErrorsIff(values[..|values| - 1], properties);
      assert values == values[..|values| - 1] + [values[|values| - 1]];
    }
  }

  // ---- what the errors say ----

  /** The types a value has: every integer is a number too, and null has none. */
  function KindsOf(v: Json): set<Kind> {
    match v
    case JNull => {}
    case JBool(_) => {BooleanKind}
    case JInt(_) => {IntegerKind, NumberKind}
    case JReal(_) => {NumberKind}
    case JStr(_) => {StringKind}
    case JList(_) => {ArrayKind}
    case JDict(_) => {ObjectKind}
  }

  lemma TypeOkIff(kind: Kind, v: Json)
    ensures TypeOk(kind, v) <==> kind in KindsOf(v)
  {
  }

  /** The type read off a default is one of the value's, the only one unless it is an integer's; null has no
      type and is read as none. */
  lemma InferredKind(v: Json)
    ensures ParamsType(Spec(None, Some(v))).None? <==> v.JNull?
    ensures !v.JNull? ==>
              forall k: Kind :: TypeOk(k, v) <==> k == ParamsType(Spec(None, Some(v))).value || (k == NumberKind && v.JInt?)
  {
  }

  /** The value is of a type its property has. */
  predicate Fits(e: Entry<Json>, properties: map<string, Property>) {
    e.key in properties && properties[e.key].kind.Some? ==> properties[e.key].kind.value in KindsOf(e.value)
  }

  lemma WellTypedIff(e: Entry<Json>, properties: map<string, Property>)
    ensures WellTyped(e, properties) <==> Fits(e, properties)
  {
    if e.key in properties && properties[e.key].kind.Some? {
      TypeOkIff(properties[e.key].kind.value, e.value);
    }
  }

  lemma {:induction false} MissingNamed(values: Dict<Json>, required: seq<string>, e: Error)
    ensures e in MissingErrors(values, required) <==> e.Missing? && e.name in required && !HasKey(values, e.name)
  {
    if required != [] {
      MissingNamed(values, required[..|required| - 1], e);
      assert required == required[..|required| - 1] + [required[|required| - 1]];
    }
  }

  lemma {:induction false} WrongTypeNamed(values: Dict<Json>, properties: map<string, Property>, e: Error)
    ensures e in TypeErrors(values, properties) <==>
            e.WrongType? && exists i | 0 <= i < |values| :: values[i].key == e.name && !Fits(values[i], properties)
  {
    if values != [] {
      var init, last := values[..|values| - 1], values[|values| - 1];
      WrongTypeNamed(init, properties, e);
      WellTypedIff(last, properties);
      assert forall i | 0 <= i < |init| :: init[i] == values[i];
      if e in TypeErrors(init, properties) {
        var i :| 0 <= i < |init| && init[i].key == e.name && !Fits(init[i], properties);
        assert values[i].key == e.name;
      }
      if e.WrongType? && exists i :: 0 <= i < |values| && values[i].key == e.name && !Fits(values[i], properties) {
        var i :| 0 <= i < |values| && values[i].key == e.name && !Fits(values[i], properties);
        if i < |init| {
          assert init[i].key == e.name;
        }
      }
    }
  }

  /** Each error is one of the input, by name, and each fault of the input has its error. */
  lemma ErrorsNameTheFaults(values: Dict<Json>, t: Translated, checkRequired: bool, e: Error)
    ensures e in Errors(values, t, checkRequired) <==>
            match e
            case Missing(f) => checkRequired && f in t.required && !HasKey(values, f)
            case NoCompleteSet => checkRequired && t.modes.Some? && t.modes.value.either != [] && !SomeSetComplete(values, t.modes.value.either)
            case WrongType(k) => exists i | 0 <= i < |values| :: values[i].key == k && !Fits(values[i], t.properties)
  {
    MissingNamed(values, t.required, e);
    WrongTypeNamed(values, t.properties, e);
    var missing, modes, types := MissingErrors(values, t.required), ModeErrors(values, t.modes), TypeErrors(values, t.properties);
    assert e in Errors(values, t, checkRequired) <==> (checkRequired && (e in missing || e in modes)) || e in types;
  }

  /** What an input without errors looks like. */
  ghost predicate Acceptable(values: Dict<Json>, t: Translated, checkRequired: bool) {
    && (checkRequired ==> AllPresent(values, t.required))
    && (checkRequired && t.modes.Some? && t.modes.value.either != [] ==> SomeSetComplete(values, t.modes.value.either))
    && forall e | e in values :: Fits(e, t.properties)
  }

  lemma ErrorsIff(values: Dict<Json>, t: Translated, checkRequired: bool)
    ensures Errors(values, t, checkRequired) == [] <==> Acceptable(values, t, checkRequired)
  {
    MissingErrorsIff(values, t.required);
    TypeErrorsIff(values, t.properties);
    forall e | e in values ensures WellTyped(e, t.properties) <==> Fits(e, t.properties) {
      WellTypedIff(e, t.properties);
    }
  }

  /** `validate_input`. */
  method ValidateInput(values: Dict<Json>, t: Translated, checkRequired: bool) returns (errors: seq<Error>)
    ensures errors == Errors(values, t, checkRequired)
    ensures errors == [] <==> Acceptable(values, t, checkRequired)
  {
    errors := [];
    if checkRequired {
      for i := 0 to |t.required|
        invariant errors == MissingErrors(values, t.required[..i])
      {
        assert t.required[..i + 1][..i] == t.required[..i];
        if !HasKey(values, t.required[i]) {
          errors := errors + [Missing(t.required[i])];
        }
      }
      assert t.required[..|t.required|] == t.required;
      if t.modes.Some? && t.modes.value.either != [] && !SomeSetComplete(values, t.modes.value.either) {
        errors := errors + [NoCompleteSet];
      }
    }
    ghost var before := errors;
    for i := 0 to |values|
      invariant errors == before + TypeErrors(values[..i], t.properties)
    {
      assert values[..i + 1][..i] == values[..i];
      if !WellTyped(values[i], t.properties) {
        errors := errors + [WrongType(values[i].key)];
      }
    }
    assert values[..|values|] == values;
    ErrorsIff(values, t, checkRequired);
  }

  // ---- what passing validation means for a new squid ----

  /** `{**defaults_to_fill, **input}`, sent for a new squid. */
  function Filled(t: Translated, input: Dict<Json>): Dict<Json> {
    Overlay(t.defaultsToFill, input)
  }

  /** The kept entries whose group is `g` and that are required. */
  predicate GroupSupplied(items: seq<Item>, values: Dict<Json>, g: string) {
    AllPresent(values, GroupFields(KeptItems(items), g))
  }

  lemma {:induction false} DefaultsUnique(items: seq<Item>)
    requires forall i, j | 0 <= i < j < |items| :: items[i].name != items[j].name
    ensures UniqueKeys(Defaults(items))
  {
    if items != [] {
      var init, last := items[..|items| - 1], items[|items| - 1];
      DefaultsUnique(init);
      if FilledByDefault(last) {
        var d := Defaults(items);
        forall i, j | 0 <= i < j < |d| ensures d[i].key != d[j].key {
          if j == |d| - 1 {
            var it := DefaultsOnly(init, i);
            var k :| 0 <= k < |init| && init[k] == it;
            assert items[k].name != items[|items| - 1].name;
          }
        }
      }
    }
  }

  lemma FilledKeys(items: seq<Item>, params: Option<Params>, input: Dict<Json>)
    requires UniqueKeys(input)
    ensures var t := Translate(items, params);
      && UniqueKeys(Filled(t, input))
      && forall k :: HasKey(Filled(t, input), k) <==> HasKey(Defaults(KeptItems(items)), k) || HasKey(input, k)
  {
    var kept := KeptItems(items);
    forall i, j | 0 <= i < j < |kept| ensures kept[i].name != kept[j].name {
      ResolveSound(items, Names(items)[i]);
      ResolveSound(items, Names(items)[j]);
    }
    DefaultsUnique(kept);
    TranslateKeeps(items, params);
    OverlayUnique(Defaults(kept), input);
    forall k ensures HasKey(Overlay(Defaults(kept), input), k) <==> HasKey(Defaults(kept), k) || HasKey(input, k) {
      OverlayHasKey(Defaults(kept), input, k);
    }
  }

  lemma DeclaredIsKept(items: seq<Item>, n: string)
    requires Declared(items, n)
    ensures Kept(items, n) in KeptItems(items) && Kept(items, n).name == n
  {
    ResolveSound(items, n);
    NamesIn(items, n);
    var names := Names(items);
    var i :| 0 <= i < |names| && names[i] == n;
    assert KeptItems(items)[i] == Kept(items, n);
  }

  /** A required ungrouped entry is in the schema's required list, or has a default to fill in. */
  lemma UngroupedIsAskedFor(items: seq<Item>, params: Option<Params>, n: string)
    requires Declared(items, n) && Kept(items, n).required && Kept(items, n).group.None?
    ensures n in Translate(items, params).required || HasKey(Defaults(KeptItems(items)), n)
  {
    DeclaredIsKept(items, n);
    TranslateKeeps(items, params);
    var it, kept := Kept(items, n), KeptItems(items);
    if it.default.None? {
      NamesWhereHas(kept, AlwaysRequired, it);
      NamesWhereHas(kept, PlainRequired, it);
    } else {
      DefaultsHave(kept, it);
    }
  }

  /** No error means that every required ungrouped entry has a value once the defaults are filled in. */
  lemma UngroupedHaveValues(items: seq<Item>, params: Option<Params>, input: Dict<Json>, n: string)
    requires UniqueKeys(input) && Errors(input, Translate(items, params), true) == []
    requires Declared(items, n) && Kept(items, n).required && Kept(items, n).group.None?
    ensures HasKey(Filled(Translate(items, params), input), n)
  {
    ErrorsIff(input, Translate(items, params), true);
    UngroupedIsAskedFor(items, params, n);
    FilledKeys(items, params, input);
  }

  lemma OnlyGroupIsAskedFor(items: seq<Item>, params: Option<Params>, input: Dict<Json>, g: string)
    requires GroupNames(KeptItems(items)) == [g] && AllPresent(input, Translate(items, params).required)
    ensures GroupSupplied(items, input, g)
  {
    var kept := KeptItems(items);
    TranslateKeeps(items, params);
    forall f | f in GroupFields(kept, g) ensures HasKey(input, f) {
      var it := NamesWhereOnly(kept, RequiredIn(g), f);
      NamesWhereHas(kept, PlainRequired, it);
    }
  }

  lemma SomeGroupIsComplete(items: seq<Item>, input: Dict<Json>)
    requires SomeSetComplete(input, Either(KeptItems(items)))
    ensures exists g :: g in GroupNames(KeptItems(items)) && GroupSupplied(items, input, g)
  {
    var kept := KeptItems(items);
    var gs, either := GroupNames(kept), Either(kept);
    var fields :| fields in either && AllPresent(input, fields);
    var i :| 0 <= i < |gs| && either[i] == fields;
    assert gs[i] in gs && GroupSupplied(items, input, gs[i]);
  }

  /** No error means that one whole group of required entries is there, whenever any group has one: all
      of it when it is the only group, one of them when there are more. */
  lemma OneGroupSupplied(items: seq<Item>, params: Option<Params>, input: Dict<Json>)
    requires UniqueKeys(input) && Errors(input, Translate(items, params), true) == []
    requires GroupNames(KeptItems(items)) != []
    ensures exists g :: g in GroupNames(KeptItems(items)) && GroupSupplied(items, input, g)
  {
    var gs := GroupNames(KeptItems(items));
    TranslateKeeps(items, params);
    ErrorsIff(input, Translate(items, params), true);
    if |gs| >= 2 {
      assert |Either(KeptItems(items))| == |gs|;
      SomeGroupIsComplete(items, input);
    } else {
      assert gs == [gs[0]];
      OnlyGroupIsAskedFor(items, params, input, gs[0]);
      assert gs[0] in gs;
    }
  }

  /** A value that has been filled in reaches the bucket of its entry's level, under its own name. */
  lemma DeclaredValueReachesItsBucket(items: seq<Item>, params: Option<Params>, input: Dict<Json>, n: string)
    requires UniqueKeys(input) && LevelsDeclared(items) && Declared(items, n)
    requires HasKey(Filled(Translate(items, params), input), n)
    ensures var t := Translate(items, params);
      n in Sent(t, Filled(t, input), BucketOf(KeptLevel(items, n, params)))
  {
    var t := Translate(items, params);
    FilledKeys(items, params, input);
    DeclaredLevelsSort(items, params, Filled(t, input));
    DeclaredKept(items, params, n);
    var i :| 0 <= i < |Filled(t, input)| && Filled(t, input)[i].key == n;
  }

  /** Validation is sound for a new squid: every required ungrouped entry, and every required entry of
      one whole group if there is any, reaches the bucket of its level with a value. */
  lemma ValidationSound(items: seq<Item>, params: Option<Params>, input: Dict<Json>)
    requires UniqueKeys(input) && LevelsDeclared(items)
    requires Errors(input, Translate(items, params), true) == []
    ensures var t := Translate(items, params);
      && (forall n | Declared(items, n) && Kept(items, n).required && Kept(items, n).group.None? ::
            n in Sent(t, Filled(t, input), BucketOf(KeptLevel(items, n, params))))
      && (GroupNames(KeptItems(items)) != [] ==>
            exists g :: g in GroupNames(KeptItems(items)) && GroupSent(items, params, input, g))
  {
    forall n | Declared(items, n) && Kept(items, n).required && Kept(items, n).group.None?
      ensures n in Sent(Translate(items, params), Filled(Translate(items, params), input), BucketOf(KeptLevel(items, n, params)))
    {
      UngroupedHaveValues(items, params, input, n);
      DeclaredValueReachesItsBucket(items, params, input, n);
    }
    if GroupNames(KeptItems(items)) != [] {
      OneGroupSupplied(items, params, input);
      var g :| g in GroupNames(KeptItems(items)) && GroupSupplied(items, input, g);
      GroupReachesItsBuckets(items, params, input, g);
    }
  }

  ghost predicate GroupSent(items: seq<Item>, params: Option<Params>, input: Dict<Json>, g: string) {
    var t := Translate(items, params);
    forall n | Declared(items, n) && Kept(items, n).required && Kept(items, n).group == Some(g) ::
      n in Sent(t, Filled(t, input), BucketOf(KeptLevel(items, n, params)))
  }

  lemma GroupReachesItsBuckets(items: seq<Item>, params: Option<Params>, input: Dict<Json>, g: string)
    requires UniqueKeys(input) && LevelsDeclared(items) && GroupSupplied(items, input, g)
    ensures GroupSent(items, params, input, g)
  {
    forall n | Declared(items, n) && Kept(items, n).required && Kept(items, n).group == Some(g)
      ensures n in Sent(Translate(items, params), Filled(Translate(items, params), input), BucketOf(KeptLevel(items, n, params)))
    {
      DeclaredIsKept(items, n);
      NamesWhereHas(KeptItems(items), RequiredIn(g), Kept(items, n));
      FilledKeys(items, params, input);
      DeclaredValueReachesItsBucket(items, params, input, n);
    }
  }

  /** Filling in defaults overrides nothing: each value of the caller is what is sent in its place, and a
      default is sent where the caller gave none. */
  lemma FilledValueIsSent(items: seq<Item>, params: Option<Params>, input: Dict<Json>, x: Entry<Json>)
    requires UniqueKeys(input) && LevelsDeclared(items)
    requires x in input || (x in Translate(items, params).defaultsToFill && !HasKey(input, x.key))
    ensures var t := Translate(items, params);
      var sent := Sent(t, Filled(t, input), BucketOfKey(t, x.key));
      Wire(t, x.key) in sent && sent[Wire(t, x.key)] == x.value
  {
    var t := Translate(items, params);
    OverlayKeeps(t.defaultsToFill, input, x);
    FilledKeys(items, params, input);
    DeclaredLevelsSort(items, params, Filled(t, input));
    hide Translate;
    var i :| 0 <= i < |Filled(t, input)| && Filled(t, input)[i] == x;
  }

  /** And received in that place, as long as no setting goes out as `functions` beside a toggle. */
  lemma FilledValueIsReceived(items: seq<Item>, params: Option<Params>, input: Dict<Json>, x: Entry<Json>)
    requires UniqueKeys(input) && LevelsDeclared(items)
    requires x in input || (x in Translate(items, params).defaultsToFill && !HasKey(input, x.key))
    requires forall k, f :: !Overwrites(Translate(items, params), k, f)
    ensures var t := Translate(items, params);
      var received := Received(t, Filled(t, input), BucketOfKey(t, x.key));
      Wire(t, x.key) in received && received[Wire(t, x.key)] == x.value
  {
    var t := Translate(items, params);
    FilledValueIsSent(items, params, input, x);
    hide *;
    ReceivedIsSent(t, Filled(t, input), BucketOfKey(t, x.key));
  }
}
