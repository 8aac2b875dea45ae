/** A squid's saved settings, and how an update is merged into them. */
module SquidSettings {
  import opened Dicts
  import opened Pricing

  predicate HasToggles(s: Settings) {
    "functions" in s && s["functions"].JDict?
  }

  /** `_effective_settings`: the update on top of what is saved, function toggles merged one by one when
      both sides have a dictionary of them. */
  function Merge(saved: Settings, update: Settings): Settings {
    var flat := saved + update;
    if HasToggles(saved) && HasToggles(update)
    then flat["functions" := JDict(saved["functions"].entries + update["functions"].entries)]
    else flat
  }

  /** An update as the tools build it: its `functions`, if any, is a dictionary. */
  predicate TogglesOnly(update: Settings) {
    "functions" in update ==> update["functions"].JDict?
  }

  lemma MergeFlat(a: Settings, b: Settings, k: string)
    requires k != "functions"
    ensures k in Merge(a, b) <==> k in a || k in b
    ensures k in Merge(a, b) ==> Merge(a, b)[k] == if k in b then b[k] else a[k]
  {
  }

  lemma MergeFunctions(a: Settings, b: Settings)
    ensures "functions" in Merge(a, b) <==> "functions" in a || "functions" in b
    ensures "functions" in Merge(a, b) ==>
              (Merge(a, b)["functions"] ==
               if "functions" !in b then a["functions"]
               else if HasToggles(a) && HasToggles(b) then JDict(a["functions"].entries + b["functions"].entries)
               else b["functions"])
  {
  }

  lemma SettingsEqual(a: Settings, b: Settings)
    requires forall k | k != "functions" :: (k in a <==> k in b) && (k in a ==> a[k] == b[k])
    requires "functions" in a <==> "functions" in b
    requires "functions" in a ==> a["functions"] == b["functions"]
    ensures a == b
  {
    assert a.Keys == b.Keys;
  }

  /** Merging is associative except when the middle update overwrites a dictionary of toggles with
      something else, and the last one does not restate all of those toggles. */
  lemma MergeAssociativeIff(a: Settings, b: Settings, c: Settings)
    ensures Merge(Merge(a, b), c) == Merge(a, Merge(b, c)) <==>
            !(HasToggles(a) && "functions" in b && !b["functions"].JDict? && HasToggles(c)
              && !(a["functions"].entries.Keys <= c["functions"].entries.Keys))
  {
    hide Merge;
    var l, r := Merge(Merge(a, b), c), Merge(a, Merge(b, c));
    forall k | k != "functions" ensures (k in l <==> k in r) && (k in l ==> l[k] == r[k]) {
      MergeFlat(a, b, k);
      MergeFlat(b, c, k);
      MergeFlat(Merge(a, b), c, k);
      MergeFlat(a, Merge(b, c), k);
    }
    MergeFunctions(a, b);
    MergeFunctions(b, c);
    MergeFunctions(Merge(a, b), c);
    MergeFunctions(a, Merge(b, c));
    if HasToggles(a) && "functions" in b && !b["functions"].JDict? && HasToggles(c) {
      var x, z := a["functions"].entries, c["functions"].entries;
      assert l["functions"] == JDict(z) && r["functions"] == JDict(x + z);
      if x.Keys <= z.Keys {
        assert x + z == z;
        SettingsEqual(l, r);
      } else {
        var k :| k in x && k !in z;
        assert k in x + z;
      }
    } else {
      if HasToggles(a) && HasToggles(b) && HasToggles(c) {
        var x, y, z := a["functions"].entries, b["functions"].entries, c["functions"].entries;
        assert (x + y) + z == x + (y + z);
      }
      SettingsEqual(l, r);
    }
  }

  /** For updates as the tools build them, merging is associative. */
  lemma MergeAssociative(a: Settings, b: Settings, c: Settings)
    requires TogglesOnly(b)
    ensures Merge(Merge(a, b), c) == Merge(a, Merge(b, c))
  {
    MergeAssociativeIff(a, b, c);
  }

  /** Saved settings after a run of updates, each merged into what it found. */
  function Fold(saved: Settings, updates: seq<Settings>): Settings {
    if updates == [] then saved else Merge(Fold(saved, updates[..|updates| - 1]), updates[|updates| - 1])
  }

  /** The last update that mentions a key decides it. */
  lemma {:induction false} LastWriterWins(saved: Settings, updates: seq<Settings>, k: string)
    requires k != "functions"
    ensures var f := Fold(saved, updates);
      if exists i | 0 <= i < |updates| :: k in updates[i]
      then exists i | 0 <= i < |updates| :: k in updates[i] && k in f && f[k] == updates[i][k]
                                          && forall j | i < j < |updates| :: k !in updates[j]
      else (k in f <==> k in saved) && (k in saved ==> f[k] == saved[k])
  {
    if updates != [] {
      var init, last := updates[..|updates| - 1], updates[|updates| - 1];
      LastWriterWins(saved, init, k);
      MergeFlat(Fold(saved, init), last, k);
      if k in last {
        assert updates[|updates| - 1] == last;
      } else if exists i | 0 <= i < |init| :: k in init[i] {
        var i :| 0 <= i < |init| && k in init[i] && k in Fold(saved, init) && Fold(saved, init)[k] == init[i][k]
                 && forall j | i < j < |init| :: k !in init[j];
        assert updates[i] == init[i];
        forall j | i < j < |updates| ensures k !in updates[j] {
          if j < |init| { assert updates[j] == init[j]; }
        }
      } else {
        forall i | 0 <= i < |updates| ensures k !in updates[i] {
          if i < |init| { assert updates[i] == init[i]; }
        }
      }
    }
  }

  /** And likewise each toggle inside `functions`: an update of one toggle leaves the others alone. */
  lemma {:induction false} LastToggleWins(saved: Settings, updates: seq<Settings>)
    requires TogglesOnly(saved) && forall u | u in updates :: TogglesOnly(u)
    ensures TogglesOnly(Fold(saved, updates))
    ensures FunctionsOf(Fold(saved, updates)) == FoldToggles(FunctionsOf(saved), updates)
  {
    hide Merge;
    if updates != [] {
      var init, last := updates[..|updates| - 1], updates[|updates| - 1];
      assert last in updates;
      LastToggleWins(saved, init);
      MergeFunctions(Fold(saved, init), last);
      assert FunctionsOf(last) == map[] || "functions" in last;
      assert FoldToggles(FunctionsOf(saved), init) + map[] == FoldToggles(FunctionsOf(saved), init);
      assert map[] + FunctionsOf(last) == FunctionsOf(last);
    }
  }

  function FoldToggles(toggles: Settings, updates: seq<Settings>): Settings {
    if updates == [] then toggles
    else FoldToggles(toggles, updates[..|updates| - 1]) + FunctionsOf(updates[|updates| - 1])
  }

  /** All updates may be combined first and merged once. */
  lemma {:induction false} FoldIsOneMerge(saved: Settings, first: Settings, updates: seq<Settings>)
    requires TogglesOnly(first) && forall u | u in updates :: TogglesOnly(u)
    ensures Fold(Merge(saved, first), updates) == Merge(saved, Fold(first, updates))
    ensures TogglesOnly(Fold(first, updates))
  {
    if updates != [] {
      var init, last := updates[..|updates| - 1], updates[|updates| - 1];
      assert last in updates;
      FoldIsOneMerge(saved, first, init);
      MergeAssociative(saved, Fold(first, init), last);
      MergeFunctions(Fold(first, init), last);
    }
  }
}
