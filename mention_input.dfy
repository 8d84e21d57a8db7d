/** The mentioned-models bar above the input: one tag per distinct model,
    with its provider's name and a repeat count. */
module MentionModelsInput {
  import opened QuickPanelTypes
  import opened Models

  // ---------------------------------------------------------------------
  // Grouping the selected models.

  /** One tag: the model it shows and how many times it was selected. */
  datatype Group = Group(model: Model, count: nat)

  /** The position of the first `x` in `s`, or `|s|` when there is none. */
  function IndexOf(s: seq<string>, x: string): (r: nat)
    ensures r <= |s|
    ensures r < |s| <==> x in s
    ensures r < |s| ==> s[r] == x
    ensures forall q :: 0 <= q < r ==> s[q] != x
    decreases |s|
  {
    if s == [] then 0 else if s[0] == x then 0 else 1 + IndexOf(s[1..], x)
  }

  lemma IndexOfAppend(s: seq<string>, t: seq<string>, x: string)
    ensures x in s ==> IndexOf(s + t, x) == IndexOf(s, x)
    ensures x !in s ==> IndexOf(s + t, x) == |s| + IndexOf(t, x)
  {
    var i := IndexOf(s + t, x);
    if x in s {
      assert (s + t)[IndexOf(s, x)] == x;
    } else {
      assert forall q :: 0 <= q < |t| ==> (s + t)[|s| + q] == t[q];
      assert forall q :: 0 <= q < |s| ==> (s + t)[q] == s[q];
    }
  }

  /** The unique ids of the groups, in order. */
  function Ids(cat: Catalog, gs: seq<Group>): seq<string>
  {
    seq(|gs|, k requires 0 <= k < |gs| => cat.uniqId(gs[k].model))
  }

  /** The groups after one more selection: the group of its id counts one
      more, or a new group with count one goes last. */
  function AddSelection(cat: Catalog, gs: seq<Group>, m: Model): seq<Group>
  {
    var j := IndexOf(Ids(cat, gs), cat.uniqId(m));
    if j < |gs| then gs[j := Group(gs[j].model, gs[j].count + 1)] else gs + [Group(m, 1)]
  }

  /** `groupedModels`: the groups of `selected`, in order of first selection. */
  function Grouped(cat: Catalog, selected: seq<Model>): seq<Group>
    decreases |selected|
  {
    if selected == [] then []
    else AddSelection(cat, Grouped(cat, selected[..|selected| - 1]), selected[|selected| - 1])
  }

  /** There are no more groups than selections, and some group exactly
      when something is selected. */
  lemma {:induction false} GroupedSize(cat: Catalog, selected: seq<Model>)
    ensures |Grouped(cat, selected)| <= |selected|
    ensures Grouped(cat, selected) == [] <==> selected == []
    decreases |selected|
  {
    if selected != [] {
      GroupedSize(cat, selected[..|selected| - 1]);
    }
  }

  /** The ids of the groups after one more selection: unchanged when its id
      already has a group, one more at the end otherwise. */
  lemma IdsAfterSelection(cat: Catalog, gs: seq<Group>, m: Model)
    ensures var id := cat.uniqId(m);
      Ids(cat, AddSelection(cat, gs, m)) == if id in Ids(cat, gs) then Ids(cat, gs) else Ids(cat, gs) + [id]
  {
    var id := cat.uniqId(m);
    var next := AddSelection(cat, gs, m);
    if id in Ids(cat, gs) {
      assert forall k :: 0 <= k < |gs| ==> next[k].model == gs[k].model;
    } else {
      assert forall k :: 0 <= k < |gs| ==> next[k] == gs[k];
    }
  }

  /** The record `counts` and its insertion order `keys` hold the groups `gs`. */
  ghost predicate Mirrors(cat: Catalog, table: map<string, Group>, keys: seq<string>, gs: seq<Group>)
  {
    keys == Ids(cat, gs) &&
    (forall id :: id in table <==> id in keys) &&
    (forall a, b :: 0 <= a < b < |keys| ==> keys[a] != keys[b]) &&
    (forall k :: 0 <= k < |keys| ==> table[keys[k]] == gs[k])
  }

  /** One pass of the loop body keeps the record in step with the groups:
      a selection of a recorded id bumps that entry. */
  lemma MirrorsBump(cat: Catalog, table: map<string, Group>, keys: seq<string>, gs: seq<Group>, m: Model)
    requires Mirrors(cat, table, keys, gs) && cat.uniqId(m) in table
    ensures var id := cat.uniqId(m);
      Mirrors(cat, table[id := Group(table[id].model, table[id].count + 1)], keys, AddSelection(cat, gs, m))
  {
    var id := cat.uniqId(m);
    IdsAfterSelection(cat, gs, m);
    var next := AddSelection(cat, gs, m);
    var j := IndexOf(keys, id);
    assert j < |keys| == |gs| && keys[j] == id;
    assert next == gs[j := Group(gs[j].model, gs[j].count + 1)];
    var t := table[id := Group(table[id].model, table[id].count + 1)];
    assert table[id] == gs[j];
    forall k | 0 <= k < |keys| ensures t[keys[k]] == next[k] {
      if k != j {
        assert keys[k] != id by {
          if k < j {
            assert keys[k] != keys[j];
          } else {
            assert keys[j] != keys[k];
          }
        }
        assert t[keys[k]] == table[keys[k]] == gs[k] == next[k];
      }
    }
    assert forall x :: x in t <==> x in table;
    assert keys == Ids(cat, next);
  }

  /** ... and a selection of a new id records it last with count one. */
  lemma MirrorsInsert(cat: Catalog, table: map<string, Group>, keys: seq<string>, gs: seq<Group>, m: Model)
    requires Mirrors(cat, table, keys, gs) && cat.uniqId(m) !in table
    ensures var id := cat.uniqId(m);
      Mirrors(cat, table[id := Group(m, 1)], keys + [id], AddSelection(cat, gs, m))
  {
    var id := cat.uniqId(m);
    IdsAfterSelection(cat, gs, m);
    var next := AddSelection(cat, gs, m);
    assert next == gs + [Group(m, 1)];
    var t := table[id := Group(m, 1)];
    var ks := keys + [id];
    forall k | 0 <= k < |ks| ensures t[ks[k]] == next[k] {
      if k < |keys| {
        assert ks[k] == keys[k] && keys[k] != id;
      }
    }
    assert forall x :: x in ks <==> x in keys || x == id;
  }

  /** The loop over `selected` that fills the `counts` record; `keys` is
      the record's insertion order. */
  method CountSelections(cat: Catalog, selected: seq<Model>) returns (table: map<string, Group>, keys: seq<string>)
    ensures Mirrors(cat, table, keys, Grouped(cat, selected))
  {
    table := map[];
    keys := [];
    var i := 0;
    while i < |selected|
      invariant 0 <= i <= |selected|
      invariant Mirrors(cat, table, keys, Grouped(cat, selected[..i]))
    {
      var m := selected[i];
      var id := cat.uniqId(m);
      assert selected[..i + 1][..i] == selected[..i];
      if id in table {
        MirrorsBump(cat, table, keys, Grouped(cat, selected[..i]), m);
        table := table[id := Group(table[id].model, table[id].count + 1)];
      } else {
        MirrorsInsert(cat, table, keys, Grouped(cat, selected[..i]), m);
        table := table[id := Group(m, 1)];
        keys := keys + [id];
      }
      i := i + 1;
    }
    assert selected[..i] == selected;
  }

  /** `groupedModels`: the counts record, read back in insertion order by
      `Object.values`. */
  method GroupModels(cat: Catalog, selected: seq<Model>) returns (groups: seq<Group>)
    ensures groups == Grouped(cat, selected)
  {
    var table, keys := CountSelections(cat, selected);
    ghost var all := Grouped(cat, selected);
    assert |keys| == |all|;
    groups := [];
    var k := 0;
    while k < |keys|
      invariant 0 <= k <= |keys|
      invariant groups == all[..k]
    {
      assert all[..k + 1] == all[..k] + [all[k]];
      groups := groups + [table[keys[k]]];
      k := k + 1;
    }
    assert all[..k] == all;
  }

  /** The total of the counts. */
  function Total(gs: seq<Group>): nat
    decreases |gs|
  {
    if gs == [] then 0 else Total(gs[..|gs| - 1]) + gs[|gs| - 1].count
  }

  lemma {:induction false} TotalUpdate(gs: seq<Group>, j: nat, g: Group)
    requires j < |gs|
    ensures Total(gs[j := g]) == Total(gs) - gs[j].count + g.count
    decreases |gs|
  {
    var n := |gs|;
    if j < n - 1 {
      assert gs[j := g][..n - 1] == gs[..n - 1][j := g];
      TotalUpdate(gs[..n - 1], j, g);
    } else {
      assert gs[j := g][..n - 1] == gs[..n - 1];
    }
  }

  /** The groups' ids are exactly the selected ids. */
  lemma {:induction false} GroupedCoversSelection(cat: Catalog, selected: seq<Model>)
    ensures forall id :: id in Ids(cat, Grouped(cat, selected)) <==> id in UniqIds(cat, selected)
    decreases |selected|
  {
    if selected != [] {
      var init := selected[..|selected| - 1];
      var m := selected[|selected| - 1];
      assert selected == init + [m];
      GroupedCoversSelection(cat, init);
      IdsAfterSelection(cat, Grouped(cat, init), m);
      UniqIdsAppend(cat, init, [m]);
      assert UniqIds(cat, [m]) == [cat.uniqId(m)];
    }
  }

  /** No two groups share an id. */
  predicate DistinctIds(cat: Catalog, gs: seq<Group>)
  {
    forall a, b :: 0 <= a < b < |gs| ==> cat.uniqId(gs[a].model) != cat.uniqId(gs[b].model)
  }

  lemma {:induction false} GroupedDistinct(cat: Catalog, selected: seq<Model>)
    ensures DistinctIds(cat, Grouped(cat, selected))
    decreases |selected|
  {
    if selected != [] {
      var init := selected[..|selected| - 1];
      var m := selected[|selected| - 1];
      GroupedDistinct(cat, init);
      var gs := Grouped(cat, init);
      var next := Grouped(cat, selected);
      var id := cat.uniqId(m);
      var j := IndexOf(Ids(cat, gs), id);
      assert next == AddSelection(cat, gs, m);
      assert forall a :: 0 <= a < |gs| ==> next[a].model == gs[a].model;
      if j == |gs| {
        assert forall a :: 0 <= a < |gs| ==> Ids(cat, gs)[a] == cat.uniqId(gs[a].model);
        assert next[|gs|].model == m;
      }
      forall a, b | 0 <= a < b < |next| ensures cat.uniqId(next[a].model) != cat.uniqId(next[b].model) {
        if b < |gs| {
          assert cat.uniqId(gs[a].model) != cat.uniqId(gs[b].model);
        }
      }
    }
  }

  /** Every group counts the selections of its id, at least one. */
  predicate CountsSelections(cat: Catalog, selected: seq<Model>, gs: seq<Group>)
  {
    forall k :: 0 <= k < |gs| ==> gs[k].count == Occurrences(cat, selected, cat.uniqId(gs[k].model)) >= 1
  }

  /** A selection of an id that has a group adds one to that group's count
      and to that id's selections, and nothing to the others. */
  lemma BumpKeepsCounts(cat: Catalog, init: seq<Model>, gs: seq<Group>, m: Model)
    requires CountsSelections(cat, init, gs) && DistinctIds(cat, gs) && cat.uniqId(m) in Ids(cat, gs)
    ensures CountsSelections(cat, init + [m], AddSelection(cat, gs, m))
  {
    var selected := init + [m];
    OccurrencesSnoc(cat, init, m);
    var next := AddSelection(cat, gs, m);
    var id := cat.uniqId(m);
    var j := IndexOf(Ids(cat, gs), id);
    assert j < |gs|;
    assert next == gs[j := Group(gs[j].model, gs[j].count + 1)];
    assert cat.uniqId(gs[j].model) == Ids(cat, gs)[j] == id;
    forall k | 0 <= k < |next|
      ensures next[k].count == Occurrences(cat, selected, cat.uniqId(next[k].model)) >= 1
    {
      if k < j {
        assert cat.uniqId(gs[k].model) != cat.uniqId(gs[j].model);
        assert next[k] == gs[k];
      } else if k > j {
        assert cat.uniqId(gs[j].model) != cat.uniqId(gs[k].model);
        assert next[k] == gs[k];
      } else {
        assert next[j] == Group(gs[j].model, gs[j].count + 1);
        assert Occurrences(cat, selected, id) == Occurrences(cat, init, id) + 1;
      }
    }
  }

  /** A selection of a new id adds a last group with count one, and no
      earlier group's id gains a selection. */
  lemma NewGroupKeepsCounts(cat: Catalog, init: seq<Model>, gs: seq<Group>, m: Model)
    requires CountsSelections(cat, init, gs)
    requires cat.uniqId(m) !in Ids(cat, gs) && cat.uniqId(m) !in UniqIds(cat, init)
    ensures CountsSelections(cat, init + [m], AddSelection(cat, gs, m))
  {
    var selected := init + [m];
    OccurrencesSnoc(cat, init, m);
    var next := AddSelection(cat, gs, m);
    var id := cat.uniqId(m);
    assert next == gs + [Group(m, 1)];
    assert Occurrences(cat, init, id) == 0;
    forall k | 0 <= k < |next|
      ensures next[k].count == Occurrences(cat, selected, cat.uniqId(next[k].model)) >= 1
    {
      if k < |gs| {
        assert cat.uniqId(gs[k].model) == Ids(cat, gs)[k] != id;
      }
    }
  }

  lemma {:induction false} GroupedCounts(cat: Catalog, selected: seq<Model>)
    ensures CountsSelections(cat, selected, Grouped(cat, selected))
    decreases |selected|
  {
    if selected != [] {
      var init := selected[..|selected| - 1];
      var m := selected[|selected| - 1];
      assert selected == init + [m];
      GroupedCounts(cat, init);
      GroupedDistinct(cat, init);
      var gs := Grouped(cat, init);
      if cat.uniqId(m) in Ids(cat, gs) {
        BumpKeepsCounts(cat, init, gs, m);
      } else {
        GroupedCoversSelection(cat, init);
        NewGroupKeepsCounts(cat, init, gs, m);
      }
    }
  }

  /** The counts add up to the number of selections. */
  lemma {:induction false} GroupedTotal(cat: Catalog, selected: seq<Model>)
    ensures Total(Grouped(cat, selected)) == |selected|
    decreases |selected|
  {
    if selected != [] {
      var init := selected[..|selected| - 1];
      var m := selected[|selected| - 1];
      GroupedTotal(cat, init);
      var gs := Grouped(cat, init);
      var j := IndexOf(Ids(cat, gs), cat.uniqId(m));
      if j < |gs| {
        TotalUpdate(gs, j, Group(gs[j].model, gs[j].count + 1));
      } else {
        assert (gs + [Group(m, 1)])[..|gs|] == gs;
      }
    }
  }

  /** Each group shows the first selected model with its id. */
  predicate ShowsFirstSelected(cat: Catalog, selected: seq<Model>, gs: seq<Group>)
  {
    forall k :: 0 <= k < |gs| ==>
      cat.uniqId(gs[k].model) in UniqIds(cat, selected) &&
      gs[k].model == selected[IndexOf(UniqIds(cat, selected), cat.uniqId(gs[k].model))]
  }

  /** The groups come in the order their ids were first selected. */
  predicate InFirstSelectionOrder(cat: Catalog, selected: seq<Model>, gs: seq<Group>)
  {
    forall a, b :: 0 <= a < b < |gs| ==>
      IndexOf(UniqIds(cat, selected), cat.uniqId(gs[a].model)) < IndexOf(UniqIds(cat, selected), cat.uniqId(gs[b].model))
  }

  /** Appending a selection does not move where an earlier id first occurs. */
  lemma FirstOccurrenceStays(cat: Catalog, init: seq<Model>, m: Model, x: string)
    requires x in UniqIds(cat, init)
    ensures IndexOf(UniqIds(cat, init + [m]), x) == IndexOf(UniqIds(cat, init), x) < |init|
    ensures (init + [m])[IndexOf(UniqIds(cat, init), x)] == init[IndexOf(UniqIds(cat, init), x)]
  {
    UniqIdsAppend(cat, init, [m]);
    IndexOfAppend(UniqIds(cat, init), UniqIds(cat, [m]), x);
  }

  /** A new id first occurs at the last position. */
  lemma FirstOccurrenceOfNew(cat: Catalog, init: seq<Model>, m: Model)
    requires cat.uniqId(m) !in UniqIds(cat, init)
    ensures IndexOf(UniqIds(cat, init + [m]), cat.uniqId(m)) == |init|
  {
    UniqIdsAppend(cat, init, [m]);
    assert UniqIds(cat, [m]) == [cat.uniqId(m)];
    IndexOfAppend(UniqIds(cat, init), [cat.uniqId(m)], cat.uniqId(m));
  }

  lemma {:induction false} GroupedShowsFirst(cat: Catalog, selected: seq<Model>)
    ensures ShowsFirstSelected(cat, selected, Grouped(cat, selected))
    decreases |selected|
  {
    if selected != [] {
      var init := selected[..|selected| - 1];
      var m := selected[|selected| - 1];
      assert selected == init + [m];
      GroupedShowsFirst(cat, init);
      GroupedCoversSelection(cat, init);
      var gs := Grouped(cat, init);
      var next := Grouped(cat, selected);
      var id := cat.uniqId(m);
      var j := IndexOf(Ids(cat, gs), id);
      assert next == AddSelection(cat, gs, m);
      UniqIdsAppend(cat, init, [m]);
      assert UniqIds(cat, [m]) == [id];
      forall k | 0 <= k < |next|
        ensures cat.uniqId(next[k].model) in UniqIds(cat, selected)
        ensures next[k].model == selected[IndexOf(UniqIds(cat, selected), cat.uniqId(next[k].model))]
      {
        if k < |gs| {
          assert next[k].model == gs[k].model;
          FirstOccurrenceStays(cat, init, m, cat.uniqId(gs[k].model));
        } else {
          assert next[k] == Group(m, 1);
          assert id !in Ids(cat, gs);
          FirstOccurrenceOfNew(cat, init, m);
        }
      }
    }
  }

  /** One more selection leaves an earlier group's model in its place, and
      its id first occurs where it did, within the earlier selections. */
  lemma EarlierGroupStays(cat: Catalog, init: seq<Model>, m: Model, k: int)
    requires 0 <= k < |Grouped(cat, init)|
    ensures var gs := Grouped(cat, init);
      k < |AddSelection(cat, gs, m)| && AddSelection(cat, gs, m)[k].model == gs[k].model &&
      IndexOf(UniqIds(cat, init + [m]), cat.uniqId(gs[k].model)) ==
      IndexOf(UniqIds(cat, init), cat.uniqId(gs[k].model)) < |init|
  {
    var gs := Grouped(cat, init);
    GroupedCoversSelection(cat, init);
    assert Ids(cat, gs)[k] == cat.uniqId(gs[k].model);
    FirstOccurrenceStays(cat, init, m, cat.uniqId(gs[k].model));
  }

  /** A selection that adds a group adds it last, and its id first occurs
      at that selection. */
  lemma NewGroupComesLast(cat: Catalog, init: seq<Model>, m: Model)
    requires |AddSelection(cat, Grouped(cat, init), m)| > |Grouped(cat, init)|
    ensures var gs := Grouped(cat, init);
      var next := AddSelection(cat, gs, m);
      |next| == |gs| + 1 && next[|gs|].model == m &&
      IndexOf(UniqIds(cat, init + [m]), cat.uniqId(m)) == |init|
  {
    var gs := Grouped(cat, init);
    GroupedCoversSelection(cat, init);
    var j := IndexOf(Ids(cat, gs), cat.uniqId(m));
    assert j == |gs|;
    assert cat.uniqId(m) !in Ids(cat, gs);
    FirstOccurrenceOfNew(cat, init, m);
  }

  /** Order by first occurrence extends to one more group: the earlier
      groups keep their models and positions, all before `n`, and a new
      last group sits at position `n`. */
  lemma OrderExtends(cat: Catalog, before: seq<string>, after: seq<string>, gs: seq<Group>, next: seq<Group>, n: int)
    requires |gs| <= |next| <= |gs| + 1
    requires forall k :: 0 <= k < |gs| ==> next[k].model == gs[k].model
    requires forall k :: 0 <= k < |gs| ==>
      IndexOf(after, cat.uniqId(gs[k].model)) == IndexOf(before, cat.uniqId(gs[k].model)) < n
    requires |next| > |gs| ==> IndexOf(after, cat.uniqId(next[|gs|].model)) == n
    requires forall a, b :: 0 <= a < b < |gs| ==>
      IndexOf(before, cat.uniqId(gs[a].model)) < IndexOf(before, cat.uniqId(gs[b].model))
    ensures forall a, b :: 0 <= a < b < |next| ==>
      IndexOf(after, cat.uniqId(next[a].model)) < IndexOf(after, cat.uniqId(next[b].model))
  {
    forall a, b | 0 <= a < b < |next|
      ensures IndexOf(after, cat.uniqId(next[a].model)) < IndexOf(after, cat.uniqId(next[b].model))
    {
      assert next[a].model == gs[a].model;
      if b < |gs| {
        assert next[b].model == gs[b].model;
      }
    }
  }

  /** One more selection keeps the groups in first-selection order. */
  lemma AddSelectionKeepsFirstOrder(cat: Catalog, init: seq<Model>, m: Model)
    requires InFirstSelectionOrder(cat, init, Grouped(cat, init))
    ensures InFirstSelectionOrder(cat, init + [m], AddSelection(cat, Grouped(cat, init), m))
  {
    var gs := Grouped(cat, init);
    var next := AddSelection(cat, gs, m);
    forall k | 0 <= k < |gs|
      ensures next[k].model == gs[k].model
      ensures IndexOf(UniqIds(cat, init + [m]), cat.uniqId(gs[k].model)) ==
              IndexOf(UniqIds(cat, init), cat.uniqId(gs[k].model)) < |init|
    {
      EarlierGroupStays(cat, init, m, k);
    }
    if |next| > |gs| {
      NewGroupComesLast(cat, init, m);
    }
    OrderExtends(cat, UniqIds(cat, init), UniqIds(cat, init + [m]), gs, next, |init|);
  }

  lemma {:induction false} GroupedInFirstSelectionOrder(cat: Catalog, selected: seq<Model>)
    ensures InFirstSelectionOrder(cat, selected, Grouped(cat, selected))
    decreases |selected|
  {
    if selected != [] {
      var init := selected[..|selected| - 1];
      var m := selected[|selected| - 1];
      assert selected == init + [m];
      GroupedInFirstSelectionOrder(cat, init);
      AddSelectionKeepsFirstOrder(cat, init, m);
    }
  }

  // ---------------------------------------------------------------------
  // The text of a tag.

  /** `k` is the first position of a provider with id `providerId`. */
  predicate FirstWithId(providers: seq<Provider>, providerId: string, k: int)
  {
    0 <= k < |providers| && providers[k].id == providerId &&
    forall q :: 0 <= q < k ==> providers[q].id != providerId
  }

  /** `providers.find(p => p.id === model.provider)`. */
  function FindProvider(providers: seq<Provider>, providerId: string): (r: Option<Provider>)
    ensures r.Some? <==> exists k :: 0 <= k < |providers| && providers[k].id == providerId
    ensures r.Some? ==> exists k :: FirstWithId(providers, providerId, k) && providers[k] == r.value
    decreases |providers|
  {
    if providers == [] then None
    else if providers[0].id == providerId then Some(providers[0])
    else
      var r := FindProvider(providers[1..], providerId);
      assert forall k :: 1 <= k < |providers| ==> providers[k] == providers[1..][k - 1];
      if r.Some? then
        var k :| FirstWithId(providers[1..], providerId, k) && providers[1..][k] == r.value;
        assert FirstWithId(providers, providerId, k + 1);
        r
      else r
  }

  /** `getProviderName`: the display name of the first provider with the
      model's provider id, or the empty string when there is none. */
  function ProviderName(cat: Catalog, providers: seq<Provider>, m: Model): (r: string)
    ensures (forall k :: 0 <= k < |providers| ==> providers[k].id != m.provider) ==> r == ""
    ensures (exists k :: 0 <= k < |providers| && providers[k].id == m.provider) ==>
      exists k :: FirstWithId(providers, m.provider, k) && r == ProviderDisplayName(cat, providers[k])
  {
    match FindProvider(providers, m.provider)
    case Some(p) => ProviderDisplayName(cat, p)
    case None => ""
  }

  /** The name is empty exactly for a model whose provider is unknown, unless
      its known provider's display name is itself empty. */
  lemma ProviderNameOfKnownProvider(cat: Catalog, providers: seq<Provider>, m: Model, k: nat)
    requires k < |providers| && providers[k].id == m.provider
    requires forall q :: 0 <= q < k ==> providers[q].id != m.provider
    ensures ProviderName(cat, providers, m) == ProviderDisplayName(cat, providers[k])
  {
    var r := FindProvider(providers, m.provider);
    var j :| FirstWithId(providers, m.provider, j) && providers[j] == r.value;
    assert j == k;
  }

  lemma ProviderNameOfUnknownProvider(cat: Catalog, providers: seq<Provider>, m: Model)
    requires forall k :: 0 <= k < |providers| ==> providers[k].id != m.provider
    ensures ProviderName(cat, providers, m) == ""
  {
  }

  function Digit(d: nat): char
    requires d < 10
  {
    (48 + d) as char
  }

  predicate IsDigit(c: char)
  {
    48 <= c as int <= 57
  }

  /** The decimal numeral of `n`, as a template literal prints it. */
  function Decimal(n: nat): string
    decreases n
  {
    if n < 10 then [Digit(n)] else Decimal(n / 10) + [Digit(n % 10)]
  }

  function DigitValue(c: char): (r: nat)
    requires IsDigit(c)
  {
    c as int - 48
  }

  /** The value of a string of decimal digits. */
  function ParseDecimal(s: string): nat
    requires forall i :: 0 <= i < |s| ==> IsDigit(s[i])
    decreases |s|
  {
    if s == [] then 0 else ParseDecimal(s[..|s| - 1]) * 10 + DigitValue(s[|s| - 1])
  }

  /** The numeral is digits only, has no leading zero, and reads back as `n`. */
  lemma {:induction false} DecimalRoundTrip(n: nat)
    ensures |Decimal(n)| > 0
    ensures forall i :: 0 <= i < |Decimal(n)| ==> IsDigit(Decimal(n)[i])
    ensures n >= 10 ==> Decimal(n)[0] != '0'
    ensures ParseDecimal(Decimal(n)) == n
    decreases n
  {
    if n >= 10 {
      DecimalRoundTrip(n / 10);
      var s := Decimal(n);
      assert s[..|s| - 1] == Decimal(n / 10);
      if n / 10 >= 10 {
        assert s[0] == Decimal(n / 10)[0];
      }
    }
  }

  /** `count > 1 && `x${count}``: nothing for a single selection. */
  function CountSuffix(count: nat): (r: string)
    ensures r == [] <==> count <= 1
    ensures count > 1 ==> r[0] == 'x' && r[1..] == Decimal(count)
  {
    if count > 1 then "x" + Decimal(count) else ""
  }

  /** A tag reads `name (provider) xN`, with the count only when above one. */
  function TagText(cat: Catalog, providers: seq<Provider>, g: Group): (r: string)
    ensures |g.model.name| <= |r| && r[..|g.model.name|] == g.model.name
    ensures |CountSuffix(g.count)| <= |r| && r[|r| - |CountSuffix(g.count)|..] == CountSuffix(g.count)
    ensures g.count <= 1 ==> r == g.model.name + " (" + ProviderName(cat, providers, g.model) + ") "
    ensures r[..|r| - |CountSuffix(g.count)|] == g.model.name + " (" + ProviderName(cat, providers, g.model) + ") "
  {
    g.model.name + " (" + ProviderName(cat, providers, g.model) + ") " + CountSuffix(g.count)
  }

  /** The suffix is empty exactly for a single selection, and otherwise
      names the count. */
  lemma CountSuffixShowsRepeats(count: nat)
    ensures CountSuffix(count) == [] <==> count <= 1
    ensures count > 1 ==>
      CountSuffix(count)[0] == 'x' &&
      (forall i :: 1 <= i < |CountSuffix(count)| ==> IsDigit(CountSuffix(count)[i])) &&
      ParseDecimal(CountSuffix(count)[1..]) == count
  {
    DecimalRoundTrip(count);
    if count > 1 {
      assert CountSuffix(count)[1..] == Decimal(count);
    }
  }

  /** Every tag of the bar ends with its repeat count exactly when that
      model was selected more than once. */
  lemma TagsShowRepeats(cat: Catalog, providers: seq<Provider>, selected: seq<Model>)
    ensures var gs := Grouped(cat, selected);
      forall k :: 0 <= k < |gs| ==>
        (CountSuffix(gs[k].count) != [] <==> Occurrences(cat, selected, cat.uniqId(gs[k].model)) > 1)
  {
    GroupedCounts(cat, selected);
    var gs := Grouped(cat, selected);
    assert CountsSelections(cat, selected, gs);
    forall k | 0 <= k < |gs| ensures CountSuffix(gs[k].count) != [] <==> gs[k].count > 1 {
      CountSuffixShowsRepeats(gs[k].count);
    }
  }
}
