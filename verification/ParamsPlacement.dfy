/** Whether inputs go out where `/params`, the authority on it, lists them. */
module ParamsPlacement {
  import opened Wrappers
  import opened Dicts
  import opened SchemaTranslator
  import opened Routing

  /** If `/params` lists the name the key goes out under, the key is published at one of its levels. */
  predicate PlacedAsListed(items: seq<Item>, params: Option<Params>, k: string) {
    var t := Translate(items, params);
    var at := LevelsFromParams(params, Wire(t, k));
    k in t.levels && at != {} ==> Normalized(t.levels[k]) in at
  }

  /** Two entries share the name, and `/params` lists it: at the level of the one that keeps it, and at
      exactly one other, or else at the shadowed one's own. */
  predicate ListedForBoth(r: Resolved, at: set<Level>)
    requires IsShadowing(r)
  {
    NormalizedLevel(r.kept) in at && (|at| == 2 || Normalized(r.shadowed.value.level.GetOr(Squid)) in at)
  }

  /** `/params` lists, if it lists it at all, both entries of a name that shadows one. */
  predicate AgreesOn(items: seq<Item>, params: Option<Params>, n: string) {
    var r, at := Resolve(items, n), LevelsFromParams(params, n);
    IsShadowing(r) && at != {} ==> ListedForBoth(r, at)
  }

  lemma ListedLevels(params: Option<Params>, n: string)
    ensures LevelsFromParams(params, n) <= {Task, Squid, Function}
    ensures Placement(params, n).Some? <==> LevelsFromParams(params, n) != {}
    ensures Placement(params, n).Some? ==> Placement(params, n).value in LevelsFromParams(params, n)
  {
  }

  /** What is left when the kept entry's section is struck off, and where that sends the shadowed one. */
  lemma AliasIsListed(r: Resolved, n: string, params: Option<Params>)
    requires IsShadowing(r)
    ensures var at := LevelsFromParams(params, n);
      NormalizedLevel(r.kept) in at ==>
        (Normalized(AliasLevel(r, n, params)) in at <==> |at| == 2 || Normalized(r.shadowed.value.level.GetOr(Squid)) in at)
  {
    ListedLevels(params, n);
    var at, kept := LevelsFromParams(params, n), NormalizedLevel(r.kept);
    if kept in at {
      var rest := at - {kept};
      assert at == rest + {kept};
      assert Task in rest || Squid in rest || Function in rest || rest == {};
      hide LevelsFromParams;
      LevelsByNumber(rest);
    }
  }

  lemma LevelsByNumber(rest: set<Level>)
    requires rest <= {Task, Squid, Function}
    ensures |rest| == 1 <==> rest == {Task} || rest == {Squid} || rest == {Function}
  {
    if |rest| == 1 {
      var x :| x in rest;
      assert |rest - {x}| == 0;
      assert rest == {x};
    }
  }

  // ---- the three kinds of published keys ----

  lemma {:induction false} ParamsOnlyLevel(t: Translated, specs: Dict<Spec>, params: Option<Params>, k: string)
    requires t.properties.Keys == t.levels.Keys && k !in t.levels && k in AddParams(t, specs, params).levels
    ensures AddParams(t, specs, params).levels[k] == Placement(params, k).GetOr(Squid)
    decreases specs
  {
    if specs != [] {
      var name, spec := specs[0].key, specs[0].value;
      var t' := if name in t.properties then t
                else t.(properties := t.properties[name := Property(ParamsType(spec), spec.default)],
                        levels := t.levels[name := Placement(params, name).GetOr(Squid)]);
      if k !in t'.levels {
        ParamsOnlyLevel(t', specs[1..], params, k);
      }
    }
  }

  /** A key that stands for no entry is one `/params` alone describes. */
  lemma LevelOfOther(items: seq<Item>, params: Option<Params>, k: string)
    requires var t := Translate(items, params); k in t.levels && k !in t.wireNames
    requires !Declared(items, k)
    ensures Translate(items, params).levels[k] == Placement(params, k).GetOr(Squid)
  {
    var als := AllAliases(items, params);
    OneDomain(Published(items, params), als);
    if k in AliasSet(als) {
      var i :| 0 <= i < |als| && als[i].alias == k;
      AliasFacts(items, params, i);
      assert false;
    }
    PublishedKept(items, params, k);
    KeptTables(items, params, Names(items), k);
    NamesIn(items, k);
    ParamsOnlyLevel(FromItems(items, params), ParamsOnlySpecs(params), params, k);
  }

  lemma AliasPlaced(items: seq<Item>, params: Option<Params>, k: string)
    requires k in Translate(items, params).wireNames && AgreesOn(items, params, Translate(items, params).wireNames[k])
    ensures PlacedAsListed(items, params, k)
  {
    AliasSound(items, params, k);
    hide Translate, LevelsFromParams, AliasLevel;
    var n := Translate(items, params).wireNames[k];
    AliasIsListed(Resolve(items, n), n, params);
  }

  lemma PlainPlaced(items: seq<Item>, params: Option<Params>, k: string)
    requires k !in Translate(items, params).wireNames && AgreesOn(items, params, k)
    ensures PlacedAsListed(items, params, k)
  {
    if k in Translate(items, params).levels {
      ListedLevels(params, k);
      if Declared(items, k) {
        DeclaredKept(items, params, k);
      } else {
        LevelOfOther(items, params, k);
      }
      hide Translate, LevelsFromParams, Placement;
    }
  }

  /** A name `/params` lists otherwise than its two entries: one of the two is misplaced. */
  lemma Misplaced(items: seq<Item>, params: Option<Params>, n: string) returns (k: string)
    requires !AgreesOn(items, params, n)
    ensures !PlacedAsListed(items, params, k)
  {
    var r, at := Resolve(items, n), LevelsFromParams(params, n);
    hide Translate, LevelsFromParams, AliasLevel, Resolve;
    DeclaredKept(items, params, n);
    if NormalizedLevel(r.kept) !in at {
      k := n;
    } else {
      k := ShadowedIsPublished(items, params, n);
      AliasSound(items, params, k);
      AliasIsListed(r, n, params);
    }
  }

  /** Every key whose name `/params` lists is published at a level it lists, exactly when no name shadows an
      entry, unlisted names aside, but those that `/params` lists for both: at the kept entry's level, and at
      just one other or at the shadowed entry's own. */
  lemma PlacedAsListedIff(items: seq<Item>, params: Option<Params>)
    ensures (forall k :: PlacedAsListed(items, params, k)) <==> (forall n :: AgreesOn(items, params, n))
  {
    hide PlacedAsListed, AgreesOn, Translate;
    if forall n :: AgreesOn(items, params, n) {
      forall k ensures PlacedAsListed(items, params, k) {
        if k in Translate(items, params).wireNames {
          AliasPlaced(items, params, k);
        } else {
          PlainPlaced(items, params, k);
        }
      }
    } else {
      var n :| !AgreesOn(items, params, n);
      var k := Misplaced(items, params, n);
    }
  }

  // ---- a toggle among the settings ----

  /** A crawler with declared levels whose setting `x` the API lists as a toggle only, beside the task input of
      that name: it goes out flat all the same. */
  lemma ToggleGoesOutFlat(v: Json)
    ensures var items := [Item("x", None, false, Some(Squid), None, None), Item("x", None, false, Some(Task), None, None)];
      var params := Some(Params(["x"], [Toggles([Entry("x", None)])]));
      var t := Translate(items, params);
      && LevelsDeclared(items) && LevelsFromParams(params, "x") == {Task, Function} && !AgreesOn(items, params, "x")
      && SquidParamsOf(t, [Entry("x", v)]) == map["x" := v] && TaskParams(t, [Entry("x", v)]) == map[]
  {
    hide Translate, LevelsFromParams, Resolve, SquidParamsOf, TaskParams;
    var a, b := Item("x", None, false, Some(Squid), None, None), Item("x", None, false, Some(Task), None, None);
    var items := [a, b];
    var params := Some(Params(["x"], [Toggles([Entry("x", None)])]));
    ShadowsOther(a, b);
    ListedTwice();
    DeclaredKept(items, params, "x");
    var t := Translate(items, params);
    SettingGoesOutFlat(t, "x", v);
  }

  lemma SettingGoesOutFlat(t: Translated, k: string, v: Json)
    requires k in t.levels && t.levels[k] == Squid && k !in t.wireNames
    ensures SquidParamsOf(t, [Entry(k, v)]) == map[k := v] && TaskParams(t, [Entry(k, v)]) == map[]
  {
    var input := [Entry(k, v)];
    assert input[..|input| - 1] == [] && input[|input| - 1] == Entry(k, v);
    forall b: Bucket ensures Sent(t, input, b) == if b == SquidParams then map[k := v] else map[] {
    }
  }

  lemma ShadowsOther(a: Item, b: Item)
    requires a.name == b.name && !b.required && NormalizedLevel(a) != NormalizedLevel(b)
    ensures Resolve([a, b], a.name) == Holds(a, Some(b))
  {
    assert [a, b][..1] == [a] && [a][..0] == [];
    assert Resolve([a], a.name) == Holds(a, None);
  }

  lemma ListedTwice()
    ensures LevelsFromParams(Some(Params(["x"], [Toggles([Entry("x", None)])])), "x") == {Task, Function}
  {
    var params := Some(Params(["x"], [Toggles([Entry("x", None)])]));
    assert params.value.squid[0].toggles[0].key == "x";
    assert HasKey(params.value.squid[0].toggles, "x");
    assert params.value.task[0] == "x";
    assert params.value.squid[0] in params.value.squid;
    assert Lists(params, Task, "x") && Lists(params, Function, "x") && !Lists(params, Squid, "x");
  }
}
