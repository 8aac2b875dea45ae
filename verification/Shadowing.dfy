/** Which of the entries that share a name are published: those of two levels, and no third. */
module Shadowing {
  import opened Wrappers
  import opened SchemaTranslator
  import opened Routing

  /** The levels at which the crawler declares the name. */
  function EntryLevels(items: seq<Item>, n: string): set<Level> {
    set it | it in items && it.name == n :: NormalizedLevel(it)
  }

  /** The entry published under `k`: the one that keeps the name, or the one it shadows. */
  ghost predicate StandsFor(items: seq<Item>, params: Option<Params>, k: string, n: string, it: Item) {
    var t, r := Translate(items, params), Resolve(items, n);
    && r.Holds? && k in t.properties && t.properties[k] == PropertyFromItem(it) && Wire(t, k) == n
    && if k == n then it == r.kept else k in t.wireNames && IsShadowing(r) && it == r.shadowed.value
  }

  /** Some entry of the name and of this level is published. */
  ghost predicate LevelPublished(items: seq<Item>, params: Option<Params>, n: string, level: Level) {
    exists k, it :: StandsFor(items, params, k, n, it) && NormalizedLevel(it) == level
  }

  /** The levels that survive the loop over the inputs. */
  function KeptLevelsOf(r: Resolved): set<Level> {
    match r
    case Absent => {}
    case Holds(kept, None) => {NormalizedLevel(kept)}
    case Holds(kept, Some(shadowed)) => {NormalizedLevel(kept), NormalizedLevel(shadowed)}
  }

  lemma {:induction false} KeptLevelsAreDeclared(items: seq<Item>, n: string)
    ensures KeptLevelsOf(Resolve(items, n)) <= EntryLevels(items, n)
    ensures |EntryLevels(items, n)| <= 2 ==> KeptLevelsOf(Resolve(items, n)) == EntryLevels(items, n)
    ensures EntryLevels(items, n) == {} <==> Resolve(items, n).Absent?
  {
    if items != [] {
      var init, last := items[..|items| - 1], items[|items| - 1];
      KeptLevelsAreDeclared(init, n);
      assert items == init + [last];
      if last.name == n {
        var more := {NormalizedLevel(last)};
        assert EntryLevels(items, n) == EntryLevels(init, n) + more;
        TwoOfThree(init, n, last);
      } else {
        assert EntryLevels(items, n) == EntryLevels(init, n);
      }
    }
  }

  /** One more entry, while the levels are no more than two. */
  lemma TwoOfThree(init: seq<Item>, n: string, last: Item)
    requires var (r, levels) := (Resolve(init, n), EntryLevels(init, n));
      && KeptLevelsOf(r) <= levels && (|levels| <= 2 ==> KeptLevelsOf(r) == levels) && (levels == {} <==> r.Absent?)
    requires last.name == n
    ensures var (r, levels) := (MergeEntry(Resolve(init, n), last), EntryLevels(init, n) + {NormalizedLevel(last)});
      && KeptLevelsOf(r) <= levels && (|levels| <= 2 ==> KeptLevelsOf(r) == levels) && (levels == {} <==> r.Absent?)
  {
    SubsetSize(EntryLevels(init, n), EntryLevels(init, n) + {NormalizedLevel(last)});
  }

  lemma PublishedLevelIsKept(items: seq<Item>, params: Option<Params>, k: string, n: string, it: Item)
    requires StandsFor(items, params, k, n, it)
    ensures NormalizedLevel(it) in KeptLevelsOf(Resolve(items, n))
  {
    hide Translate;
  }

  lemma KeptLevelIsPublished(items: seq<Item>, params: Option<Params>, n: string, level: Level)
    requires level in KeptLevelsOf(Resolve(items, n))
    ensures LevelPublished(items, params, n, level)
  {
    hide Translate, KeptLevel, AliasLevel, Resolve, Published, PropertyFromItem;
    var r := Resolve(items, n);
    if level == NormalizedLevel(r.kept) {
      DeclaredKept(items, params, n);
      assert StandsFor(items, params, n, n, r.kept);
    } else {
      var a := ShadowedIsPublished(items, params, n);
      AliasSound(items, params, a);
      DeclaredKept(items, params, n);
      assert StandsFor(items, params, a, n, r.shadowed.value);
    }
  }

  /** Every level at which a name is declared has an entry of that name published exactly when there are no
      more than two of them: the loop keeps one shadowed entry, so a third level overwrites it. */
  lemma EveryLevelPublishedIff(items: seq<Item>, params: Option<Params>, n: string)
    ensures (forall level | level in EntryLevels(items, n) :: LevelPublished(items, params, n, level)) <==> |EntryLevels(items, n)| <= 2
  {
    var kept, declared := KeptLevelsOf(Resolve(items, n)), EntryLevels(items, n);
    KeptLevelsAreDeclared(items, n);
    if |declared| <= 2 {
      forall level | level in declared ensures LevelPublished(items, params, n, level) {
        KeptLevelIsPublished(items, params, n, level);
      }
    } else {
      AtMostTwo(Resolve(items, n));
      assert !(declared <= kept);
      var level :| level in declared && level !in kept;
      if LevelPublished(items, params, n, level) {
        var k, it :| StandsFor(items, params, k, n, it) && NormalizedLevel(it) == level;
        PublishedLevelIsKept(items, params, k, n, it);
      }
    }
  }

  lemma AtMostTwo(r: Resolved)
    ensures |KeptLevelsOf(r)| <= 2
    ensures forall s: set<Level> | s <= KeptLevelsOf(r) :: |s| <= 2
  {
    forall s: set<Level> | s <= KeptLevelsOf(r) ensures |s| <= |KeptLevelsOf(r)| {
      SubsetSize(s, KeptLevelsOf(r));
    }
  }

  lemma {:induction false} SubsetSize(s: set<Level>, t: set<Level>)
    requires s <= t
    ensures |s| <= |t|
  {
    if s != {} {
      var x :| x in s;
      SubsetSize(s - {x}, t - {x});
    }
  }

  /** The levels at which the name can be sent. */
  ghost predicate SentAt(t: Translated, n: string, level: Level) {
    exists k | k in t.levels :: Wire(t, k) == n && Normalized(t.levels[k]) == level
  }

  lemma LevelsWithoutParams(items: seq<Item>, n: string)
    requires (forall it | it in items :: it.level.Some?) && Declared(items, n)
    ensures var r := Resolve(items, n);
      && KeptLevel(items, n, None) == DeclaredLevel(r.kept)
      && (IsShadowing(r) ==> AliasLevel(r, n, None) == DeclaredLevel(r.shadowed.value))
  {
    assert LevelsFromParams(None, n) == {};
    ResolveSound(items, n);
  }

  /** The level of any key that is sent under the name. */
  lemma SentLevelIsKept(items: seq<Item>, n: string, k: string)
    requires (forall it | it in items :: it.level.Some?) && Declared(items, n)
    requires var t := Translate(items, None); k in t.levels && Wire(t, k) == n
    ensures Normalized(Translate(items, None).levels[k]) in KeptLevelsOf(Resolve(items, n))
  {
    hide Translate;
    LevelsWithoutParams(items, n);
    DeclaredKept(items, None, n);
    if k in Translate(items, None).wireNames {
      AliasSound(items, None, k);
    }
  }

  lemma SentAtIsKept(items: seq<Item>, n: string, level: Level)
    requires (forall it | it in items :: it.level.Some?) && Declared(items, n)
    ensures SentAt(Translate(items, None), n, level) <==> level in KeptLevelsOf(Resolve(items, n))
  {
    hide Translate, KeptLevel, AliasLevel;
    var t, r := Translate(items, None), Resolve(items, n);
    LevelsWithoutParams(items, n);
    DeclaredKept(items, None, n);
    if SentAt(t, n, level) {
      var k :| k in t.levels && Wire(t, k) == n && Normalized(t.levels[k]) == level;
      SentLevelIsKept(items, n, k);
    }
    assert Wire(t, n) == n;
    if IsShadowing(r) {
      var a := ShadowedIsPublished(items, None, n);
      AliasSound(items, None, a);
      assert Wire(t, a) == n;
    }
  }

  /** So without `/params`, a name declared at explicit levels can be sent at each of them exactly when they
      are no more than two. */
  lemma EveryLevelSentIff(items: seq<Item>, n: string)
    requires (forall it | it in items :: it.level.Some?) && Declared(items, n)
    ensures (forall level | level in EntryLevels(items, n) :: SentAt(Translate(items, None), n, level)) <==> |EntryLevels(items, n)| <= 2
  {
    forall level ensures SentAt(Translate(items, None), n, level) <==> level in KeptLevelsOf(Resolve(items, n)) {
      SentAtIsKept(items, n, level);
    }
    KeptLevelsAreDeclared(items, n);
    AtMostTwo(Resolve(items, n));
    hide Translate;
  }

  /** One name at three levels: the squid-level input is overwritten and can no longer be set. */
  lemma ThirdLevelIsDropped(n: string)
    ensures var a, b, c := Plain(n, Task), Plain(n, Squid), Plain(n, Function);
      && Resolve([a, b, c], n) == Holds(a, Some(c))
      && Squid in EntryLevels([a, b, c], n) && !SentAt(Translate([a, b, c], None), n, Squid)
  {
    var a, b, c := Plain(n, Task), Plain(n, Squid), Plain(n, Function);
    var items := [a, b, c];
    hide Translate, Resolve, SentAt;
    ThreeResolve(a, b, c, n);
    assert items[1] in items && NormalizedLevel(items[1]) == Squid;
    hide EntryLevels;
    SentAtIsKept(items, n, Squid);
  }

  lemma ThreeResolve(a: Item, b: Item, c: Item, n: string)
    requires a.name == b.name == c.name == n && !a.required && !b.required && !c.required
    requires NormalizedLevel(a) != NormalizedLevel(b) && NormalizedLevel(a) != NormalizedLevel(c)
    ensures Resolve([a, b, c], n) == Holds(a, Some(c))
  {
    assert [a, b, c][..2] == [a, b] && [a, b][..1] == [a] && [a][..0] == [];
    assert Resolve([a], n) == Holds(a, None);
    assert Resolve([a, b], n) == Holds(a, Some(b));
  }

  function Plain(n: string, level: Level): Item {
    Item(n, None, false, Some(level), None, None)
  }
}
