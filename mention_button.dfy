/** The mention-models button: the list of models it offers in the quick
    panel, with each model's mention count, and the toggle that opens or
    closes that panel. */
module MentionModelsButton {
  import opened QuickPanelTypes
  import opened Models
  import opened QuickPanelProvider
  import opened QuickPanelSearch

  // ---------------------------------------------------------------------
  // Mention counts.

  /** The count the list reads for an id: `mentionModelCounts[id] || 0`. */
  function CountOf(counts: map<string, nat>, id: string): nat
  {
    if id in counts then counts[id] else 0
  }

  /** `mentionModelCounts`: the number of mentions of each unique id. */
  method MentionModelCounts(cat: Catalog, mentions: seq<Model>) returns (counts: map<string, nat>)
    ensures forall id :: id in counts <==> id in UniqIds(cat, mentions)
    ensures forall id :: CountOf(counts, id) == Occurrences(cat, mentions, id)
  {
    counts := map[];
    var i := 0;
    while i < |mentions|
      invariant 0 <= i <= |mentions|
      invariant forall id :: id in counts <==> Occurrences(cat, mentions[..i], id) > 0
      invariant forall id :: CountOf(counts, id) == Occurrences(cat, mentions[..i], id)
    {
      var id := cat.uniqId(mentions[i]);
      counts := counts[id := CountOf(counts, id) + 1];
      assert mentions[..i + 1] == mentions[..i] + [mentions[i]];
      OccurrencesSnoc(cat, mentions[..i], mentions[i]);
      i := i + 1;
    }
    assert mentions[..i] == mentions;
    assert forall id :: id in UniqIds(cat, mentions) <==> Occurrences(cat, mentions, id) > 0;
  }

  // ---------------------------------------------------------------------
  // Which models are listed, and in what order.

  /** Embedding and rerank models are never offered. */
  predicate Listed(cat: Catalog, m: Model)
  {
    !cat.isEmbedding(m) && !cat.isRerank(m)
  }

  predicate IsPinned(cat: Catalog, pinned: seq<string>, m: Model)
  {
    cat.uniqId(m) in pinned
  }

  /** A model offered under the provider that holds it. */
  datatype Entry = Entry(provider: Provider, model: Model)

  /** The pinned, listed models of one provider, in their order. */
  function PinnedOf(cat: Catalog, pinned: seq<string>, p: Provider, models: seq<Model>): (r: seq<Entry>)
    ensures forall k :: 0 <= k < |r| ==>
      r[k].provider == p && r[k].model in models && Listed(cat, r[k].model) && IsPinned(cat, pinned, r[k].model)
    ensures forall m :: m in models && Listed(cat, m) && IsPinned(cat, pinned, m) ==> Entry(p, m) in r
    decreases |models|
  {
    if models == [] then []
    else
      var rest := PinnedOf(cat, pinned, p, models[1..]);
      if Listed(cat, models[0]) && IsPinned(cat, pinned, models[0]) then [Entry(p, models[0])] + rest else rest
  }

  /** `providers.flatMap(...)`: the pinned block, provider by provider. */
  function PinnedEntries(cat: Catalog, pinned: seq<string>, providers: seq<Provider>): (r: seq<Entry>)
    ensures forall k :: 0 <= k < |r| ==>
      r[k].provider in providers && r[k].model in r[k].provider.models &&
      Listed(cat, r[k].model) && IsPinned(cat, pinned, r[k].model)
    ensures forall p, m :: p in providers && m in p.models && Listed(cat, m) && IsPinned(cat, pinned, m) ==> Entry(p, m) in r
    decreases |providers|
  {
    if providers == [] then []
    else PinnedOf(cat, pinned, providers[0], providers[0].models) + PinnedEntries(cat, pinned, providers[1..])
  }

  /** The listed models of a provider that are not pinned, in their order. */
  function Unpinned(cat: Catalog, pinned: seq<string>, models: seq<Model>): (r: seq<Model>)
    ensures forall m :: m in r <==> m in models && Listed(cat, m) && !IsPinned(cat, pinned, m)
    ensures IsSubsequence(r, models)
    decreases |models|
  {
    if models == [] then []
    else
      var rest := Unpinned(cat, pinned, models[1..]);
      if Listed(cat, models[0]) && !IsPinned(cat, pinned, models[0]) then
        assert ([models[0]] + rest)[1..] == rest;
        [models[0]] + rest
      else rest
  }

  /** `Unpinned` keeps every listed unpinned model as many times as the
      provider lists it, and no other model. */
  ghost predicate KeepsUnpinnedCopies(cat: Catalog, pinned: seq<string>, models: seq<Model>, r: seq<Model>)
  {
    forall m :: multiset(r)[m] == if Listed(cat, m) && !IsPinned(cat, pinned, m) then multiset(models)[m] else 0
  }

  lemma {:induction false} UnpinnedKeepsCopies(cat: Catalog, pinned: seq<string>, models: seq<Model>)
    ensures KeepsUnpinnedCopies(cat, pinned, models, Unpinned(cat, pinned, models))
    decreases |models|
  {
    if models != [] {
      var rest := Unpinned(cat, pinned, models[1..]);
      UnpinnedKeepsCopies(cat, pinned, models[1..]);
      assert multiset(models) == multiset{models[0]} + multiset(models[1..]) by {
        assert models == [models[0]] + models[1..];
      }
      assert multiset([models[0]] + rest) == multiset{models[0]} + multiset(rest);
    }
  }

  /** JavaScript's `<` on strings: lexicographic order of the characters,
      compared as code points (JavaScript compares UTF-16 code units). */
  predicate StrLess(a: string, b: string)
    decreases |a|
  {
    b != [] && (a == [] || a[0] < b[0] || (a[0] == b[0] && StrLess(a[1..], b[1..])))
  }

  lemma {:induction false} StrLessIrreflexive(a: string)
    ensures !StrLess(a, a)
    decreases |a|
  {
    if a != [] {
      StrLessIrreflexive(a[1..]);
    }
  }

  lemma {:induction false} StrLessTrichotomy(a: string, b: string)
    ensures a == b || StrLess(a, b) || StrLess(b, a)
    ensures !(StrLess(a, b) && StrLess(b, a))
    ensures a == b ==> !StrLess(a, b)
    decreases |a|
  {
    StrLessIrreflexive(a);
    if a != [] && b != [] {
      StrLessTrichotomy(a[1..], b[1..]);
      if a[0] == b[0] && a[1..] == b[1..] {
        assert a == [a[0]] + a[1..] && b == [b[0]] + b[1..];
      }
    }
  }

  lemma {:induction false} StrLessTransitive(a: string, b: string, c: string)
    requires StrLess(a, b) && StrLess(b, c)
    ensures StrLess(a, c)
    decreases |a|
  {
    if a != [] && a[0] == b[0] && b[0] == c[0] {
      StrLessTransitive(a[1..], b[1..], c[1..]);
    }
  }

  /** lodash `sortBy(models, ['group', 'name'])` order: `a` may precede `b`. */
  predicate ModelBefore(a: Model, b: Model)
  {
    StrLess(a.group, b.group) || (a.group == b.group && !StrLess(b.name, a.name))
  }

  lemma ModelBeforeTotal(a: Model, b: Model)
    ensures ModelBefore(a, b) || ModelBefore(b, a)
  {
    StrLessTrichotomy(a.group, b.group);
    StrLessTrichotomy(a.name, b.name);
  }

  lemma ModelBeforeTransitive(a: Model, b: Model, c: Model)
    requires ModelBefore(a, b) && ModelBefore(b, c)
    ensures ModelBefore(a, c)
  {
    StrLessTrichotomy(a.group, b.group);
    StrLessTrichotomy(b.group, c.group);
    StrLessTrichotomy(a.group, c.group);
    if StrLess(a.group, b.group) && StrLess(b.group, c.group) {
      StrLessTransitive(a.group, b.group, c.group);
    } else if a.group == b.group && b.group == c.group {
      StrLessTrichotomy(a.name, b.name);
      StrLessTrichotomy(b.name, c.name);
      StrLessTrichotomy(a.name, c.name);
      if StrLess(c.name, a.name) {
        if a.name == b.name {
        } else if StrLess(a.name, b.name) {
          StrLessTransitive(c.name, a.name, b.name);
        } else {
          StrLessIrreflexive(a.name);
          if b.name == c.name {
          } else {
            StrLessTransitive(b.name, c.name, a.name);
          }
        }
      }
    }
  }

  predicate SortedByGroupName(ms: seq<Model>)
  {
    forall i, j :: 0 <= i < j < |ms| ==> ModelBefore(ms[i], ms[j])
  }

  /** Insert `m` before the first model it may precede. */
  function InsertModel(m: Model, ms: seq<Model>): (r: seq<Model>)
    ensures |r| == |ms| + 1
    decreases |ms|
  {
    if ms == [] then [m]
    else if ModelBefore(m, ms[0]) then [m] + ms
    else [ms[0]] + InsertModel(m, ms[1..])
  }

  /** `sortBy(..., ['group', 'name'])`, as an insertion sort. */
  function SortByGroupName(ms: seq<Model>): (r: seq<Model>)
    ensures |r| == |ms|
    decreases |ms|
  {
    if ms == [] then []
    else
      var rest := SortByGroupName(ms[1..]);
      InsertModelPermutes(ms[0], rest);
      assert |multiset(InsertModel(ms[0], rest))| == |multiset(rest)| + 1;
      InsertModel(ms[0], rest)
  }

  /** Models with the same group and name: `sortBy` does not order them. */
  predicate SameKey(a: Model, b: Model)
  {
    a.group == b.group && a.name == b.name
  }

  /** The models of `ms` with the key of `a`, in their order. */
  function WithKeyOf(ms: seq<Model>, a: Model): (r: seq<Model>)
    ensures forall k :: 0 <= k < |r| ==> SameKey(r[k], a)
    decreases |ms|
  {
    if ms == [] then [] else (if SameKey(ms[0], a) then [ms[0]] else []) + WithKeyOf(ms[1..], a)
  }

  lemma {:induction false} InsertModelStable(m: Model, ms: seq<Model>, a: Model)
    ensures WithKeyOf(InsertModel(m, ms), a) == (if SameKey(m, a) then [m] else []) + WithKeyOf(ms, a)
    decreases |ms|
  {
    if ms == [] {
      assert WithKeyOf([m], a) == (if SameKey(m, a) then [m] else []) + WithKeyOf([], a);
    } else if ModelBefore(m, ms[0]) {
      assert ([m] + ms)[1..] == ms;
    } else {
      StrLessIrreflexive(m.name);
      InsertModelStable(m, ms[1..], a);
      assert ([ms[0]] + InsertModel(m, ms[1..]))[1..] == InsertModel(m, ms[1..]);
    }
  }

  /** The sort is stable: models with the same group and name keep their
      relative order. */
  lemma {:induction false} SortByGroupNameStable(ms: seq<Model>, a: Model)
    ensures WithKeyOf(SortByGroupName(ms), a) == WithKeyOf(ms, a)
    decreases |ms|
  {
    if ms != [] {
      SortByGroupNameStable(ms[1..], a);
      InsertModelStable(ms[0], SortByGroupName(ms[1..]), a);
    }
  }

  lemma {:induction false} InsertModelPermutes(m: Model, ms: seq<Model>)
    ensures multiset(InsertModel(m, ms)) == multiset(ms) + multiset{m}
    ensures |InsertModel(m, ms)| > 0
    ensures InsertModel(m, ms)[0] == m || (ms != [] && InsertModel(m, ms)[0] == ms[0])
    decreases |ms|
  {
    if ms != [] && !ModelBefore(m, ms[0]) {
      InsertModelPermutes(m, ms[1..]);
      assert ms == [ms[0]] + ms[1..];
    }
  }

  lemma {:induction false} InsertModelSorted(m: Model, ms: seq<Model>)
    requires SortedByGroupName(ms)
    ensures SortedByGroupName(InsertModel(m, ms))
    decreases |ms|
  {
    if ms == [] {
    } else if ModelBefore(m, ms[0]) {
      forall j | 0 <= j < |ms| ensures ModelBefore(m, ms[j]) {
        if j > 0 { ModelBeforeTransitive(m, ms[0], ms[j]); }
      }
      assert forall j :: 1 <= j < |[m] + ms| ==> ([m] + ms)[j] == ms[j - 1];
    } else {
      ModelBeforeTotal(m, ms[0]);
      var rest := InsertModel(m, ms[1..]);
      InsertModelSorted(m, ms[1..]);
      InsertModelPermutes(m, ms[1..]);
      assert ms == [ms[0]] + ms[1..];
      forall j | 0 <= j < |rest| ensures ModelBefore(ms[0], rest[j]) {
        assert rest[j] in multiset(rest);
        if rest[j] != m {
          assert rest[j] in multiset(ms[1..]);
          var k :| 0 <= k < |ms[1..]| && ms[1..][k] == rest[j];
          assert ms[k + 1] == rest[j];
        }
      }
      assert forall j :: 1 <= j < |[ms[0]] + rest| ==> ([ms[0]] + rest)[j] == rest[j - 1];
    }
  }

  /** The sort orders by group, then name, and keeps every model. */
  lemma {:induction false} SortByGroupNameCorrect(ms: seq<Model>)
    ensures SortedByGroupName(SortByGroupName(ms))
    ensures multiset(SortByGroupName(ms)) == multiset(ms)
    decreases |ms|
  {
    if ms != [] {
      SortByGroupNameCorrect(ms[1..]);
      InsertModelSorted(ms[0], SortByGroupName(ms[1..]));
      InsertModelPermutes(ms[0], SortByGroupName(ms[1..]));
      assert ms == [ms[0]] + ms[1..];
    }
  }

  function EntriesOf(p: Provider, ms: seq<Model>): (r: seq<Entry>)
    ensures |r| == |ms|
    ensures forall k :: 0 <= k < |ms| ==> r[k] == Entry(p, ms[k])
    decreases |ms|
  {
    if ms == [] then [] else [Entry(p, ms[0])] + EntriesOf(p, ms[1..])
  }

  /** One provider's block: its unpinned listed models, sorted. */
  function ProviderBlock(cat: Catalog, pinned: seq<string>, p: Provider): seq<Entry>
  {
    EntriesOf(p, SortByGroupName(Unpinned(cat, pinned, p.models)))
  }

  /** The provider blocks, in provider order. */
  function ProviderEntries(cat: Catalog, pinned: seq<string>, providers: seq<Provider>): seq<Entry>
    decreases |providers|
  {
    if providers == [] then []
    else ProviderEntries(cat, pinned, providers[..|providers| - 1]) + ProviderBlock(cat, pinned, providers[|providers| - 1])
  }

  lemma ProviderEntriesSnoc(cat: Catalog, pinned: seq<string>, providers: seq<Provider>, i: nat)
    requires i < |providers|
    ensures ProviderEntries(cat, pinned, providers[..i + 1]) ==
      ProviderEntries(cat, pinned, providers[..i]) + ProviderBlock(cat, pinned, providers[i])
  {
    assert providers[..i + 1][..i] == providers[..i];
  }

  lemma ConcatAssoc<T>(a: seq<T>, b: seq<T>, c: seq<T>)
    ensures (a + b) + c == a + (b + c)
  {
  }

  /** The pinned block when there are pinned ids, in flat-map order: the
      labels `sortBy` compares are React elements that all compare equal,
      so lodash's stable sort keeps that order. */
  function LeadEntries(cat: Catalog, pinned: seq<string>, providers: seq<Provider>): (r: seq<Entry>)
    ensures |pinned| == 0 ==> r == []
  {
    if |pinned| > 0 then PinnedEntries(cat, pinned, providers) else []
  }

  /** Every offered model, in list order: the pinned block, then the provider blocks. */
  function Entries(cat: Catalog, pinned: seq<string>, providers: seq<Provider>): seq<Entry>
  {
    LeadEntries(cat, pinned, providers) + ProviderEntries(cat, pinned, providers)
  }

  // ---------------------------------------------------------------------
  // The list items.

  /** The item for a model mentioned `count` times. */
  function ModelItem(cat: Catalog, e: Entry, count: nat, id: ItemId): (r: ListItem)
    ensures r.id == id && r.selectionCount == count && (r.isSelected <==> count > 0)
    ensures r.filterText == Some(ProviderDisplayName(cat, e.provider) + e.model.name)
    ensures r.action == Some(HostFn("onMentionModel", cat.uniqId(e.model)))
    ensures !r.isMenu && !r.disabled && !r.alwaysVisible
  {
    ListItem(id, Element, Some(Element), Some(ProviderDisplayName(cat, e.provider) + e.model.name), Element, None,
             count > 0, count, false, false, false, Some(HostFn("onMentionModel", cat.uniqId(e.model))))
  }

  /** The closing "add model" item, which opens the provider settings. */
  function AddModelItem(cat: Catalog, id: ItemId): (r: ListItem)
    ensures r.id == id && !r.isSelected && r.selectionCount == 0 && r.filterText.None?
    ensures r.caption == Text(cat.translate("settings.models.add.add_model") + "...")
    ensures r.action == Some(HostFn("navigate", "/settings/provider"))
    ensures !r.isMenu && !r.disabled
  {
    ListItem(id, Text(cat.translate("settings.models.add.add_model") + "..."), None, None, Element, None,
             false, 0, false, false, false, Some(HostFn("navigate", "/settings/provider")))
  }

  /** The model items for `entries`, numbered from `start`. */
  function ItemsFor(cat: Catalog, counts: map<string, nat>, entries: seq<Entry>, start: nat): seq<ListItem>
  {
    seq(|entries|, k requires 0 <= k < |entries| =>
      ModelItem(cat, entries[k], CountOf(counts, cat.uniqId(entries[k].model)), start + k))
  }

  lemma ItemsForAppend(cat: Catalog, counts: map<string, nat>, a: seq<Entry>, b: seq<Entry>, start: nat)
    ensures ItemsFor(cat, counts, a + b, start) == ItemsFor(cat, counts, a, start) + ItemsFor(cat, counts, b, start + |a|)
  {
    var l := ItemsFor(cat, counts, a + b, start);
    var r := ItemsFor(cat, counts, a, start) + ItemsFor(cat, counts, b, start + |a|);
    forall k | 0 <= k < |l| ensures l[k] == r[k] {
      if k >= |a| { assert (a + b)[k] == b[k - |a|]; }
    }
  }

  /** The full list for given mention counts: the model items numbered from
      `firstId`, then the "add model" item. */
  function MentionItems(cat: Catalog, counts: map<string, nat>, entries: seq<Entry>, firstId: nat): seq<ListItem>
  {
    ItemsFor(cat, counts, entries, firstId) + [AddModelItem(cat, firstId + |entries|)]
  }

  /** Pushing one provider's block, when it is not empty, extends the list
      by that provider's entries. */
  lemma PushBlockStep(cat: Catalog, counts: map<string, nat>, pinned: seq<string>, providers: seq<Provider>,
                      lead: seq<Entry>, i: nat, items: seq<ListItem>, firstId: nat)
    requires i < |providers|
    requires items == ItemsFor(cat, counts, lead + ProviderEntries(cat, pinned, providers[..i]), firstId)
    ensures var blockItems := ItemsFor(cat, counts, ProviderBlock(cat, pinned, providers[i]), firstId + |items|);
      (if |blockItems| > 0 then items + blockItems else items) ==
      ItemsFor(cat, counts, lead + ProviderEntries(cat, pinned, providers[..i + 1]), firstId)
  {
    var before := lead + ProviderEntries(cat, pinned, providers[..i]);
    var block := ProviderBlock(cat, pinned, providers[i]);
    ItemsForAppend(cat, counts, before, block, firstId);
    if block == [] {
      assert before + block == before;
    }
    ProviderEntriesSnoc(cat, pinned, providers, i);
    ConcatAssoc(lead, ProviderEntries(cat, pinned, providers[..i]), block);
  }

  /** The last push of `modelItems` completes the list. */
  lemma PushAddModel(cat: Catalog, counts: map<string, nat>, entries: seq<Entry>, items: seq<ListItem>, firstId: nat)
    requires items == ItemsFor(cat, counts, entries, firstId)
    ensures items + [AddModelItem(cat, firstId + |items|)] == MentionItems(cat, counts, entries, firstId)
  {
  }

  /** The first push of `modelItems`: the pinned block, when there are
      pinned ids and the block is not empty. */
  method PushPinned(cat: Catalog, providers: seq<Provider>, pinned: seq<string>, counts: map<string, nat>, firstId: nat)
    returns (items: seq<ListItem>)
    ensures items == ItemsFor(cat, counts, LeadEntries(cat, pinned, providers), firstId)
  {
    items := [];
    if |pinned| > 0 {
      var pinnedItems := ItemsFor(cat, counts, PinnedEntries(cat, pinned, providers), firstId);
      if |pinnedItems| > 0 {
        items := items + pinnedItems;
      }
    }
  }

  /** The pushes of `modelItems`: the pinned block, each provider's block in
      turn, and the "add model" item. */
  method PushItems(cat: Catalog, providers: seq<Provider>, pinned: seq<string>, counts: map<string, nat>, firstId: nat)
    returns (items: seq<ListItem>)
    ensures items == MentionItems(cat, counts, Entries(cat, pinned, providers), firstId)
  {
    var lead := LeadEntries(cat, pinned, providers);
    items := PushPinned(cat, providers, pinned, counts, firstId);
    assert lead + ProviderEntries(cat, pinned, providers[..0]) == lead;
    var i := 0;
    while i < |providers|
      invariant 0 <= i <= |providers|
      invariant items == ItemsFor(cat, counts, lead + ProviderEntries(cat, pinned, providers[..i]), firstId)
    {
      var blockItems := ItemsFor(cat, counts, ProviderBlock(cat, pinned, providers[i]), firstId + |items|);
      PushBlockStep(cat, counts, pinned, providers, lead, i, items, firstId);
      if |blockItems| > 0 {
        items := items + blockItems;
      }
      i := i + 1;
    }
    assert providers[..i] == providers;
    PushAddModel(cat, counts, Entries(cat, pinned, providers), items, firstId);
    items := items + [AddModelItem(cat, firstId + |items|)];
  }

  /** What the list says about each model: its item, numbered in order,
      carries its mention count and is selected exactly when mentioned; the
      "add model" item comes last, unselected. */
  lemma MentionItemsMeaning(cat: Catalog, counts: map<string, nat>, mentions: seq<Model>, entries: seq<Entry>, firstId: nat)
    requires forall id :: CountOf(counts, id) == Occurrences(cat, mentions, id)
    ensures var items := MentionItems(cat, counts, entries, firstId);
      |items| == |entries| + 1 &&
      (forall k :: 0 <= k < |entries| ==>
        items[k] == ModelItem(cat, entries[k], Occurrences(cat, mentions, cat.uniqId(entries[k].model)), firstId + k)) &&
      (forall k :: 0 <= k < |entries| ==>
        items[k].selectionCount == Occurrences(cat, mentions, cat.uniqId(entries[k].model)) &&
        (items[k].isSelected <==> items[k].selectionCount > 0)) &&
      (forall k :: 0 <= k < |items| ==> items[k].id == firstId + k) &&
      items[|entries|] == AddModelItem(cat, firstId + |entries|) && !items[|entries|].isSelected
  {
  }

  /** `modelItems`: the list the button offers for the current mentions. */
  method BuildModelItems(cat: Catalog, providers: seq<Provider>, pinned: seq<string>, mentions: seq<Model>, firstId: nat)
    returns (items: seq<ListItem>)
    ensures var entries := Entries(cat, pinned, providers);
      |items| == |entries| + 1 &&
      (forall k :: 0 <= k < |entries| ==>
        items[k] == ModelItem(cat, entries[k], Occurrences(cat, mentions, cat.uniqId(entries[k].model)), firstId + k)) &&
      items[|entries|] == AddModelItem(cat, firstId + |entries|)
  {
    var counts := MentionModelCounts(cat, mentions);
    items := PushItems(cat, providers, pinned, counts, firstId);
    MentionItemsMeaning(cat, counts, mentions, Entries(cat, pinned, providers), firstId);
  }

  // ---------------------------------------------------------------------
  // Properties of the offered models.

  /** One provider's block holds exactly its unpinned listed models. */
  lemma BlockShape(cat: Catalog, pinned: seq<string>, p: Provider)
    ensures forall e :: e in ProviderBlock(cat, pinned, p) ==>
      e.provider == p && e.model in p.models && Listed(cat, e.model) && !IsPinned(cat, pinned, e.model)
    ensures forall m :: m in p.models && Listed(cat, m) && !IsPinned(cat, pinned, m) ==>
      Entry(p, m) in ProviderBlock(cat, pinned, p)
  {
    var unpinned := Unpinned(cat, pinned, p.models);
    var sorted := SortByGroupName(unpinned);
    var block := ProviderBlock(cat, pinned, p);
    SortByGroupNameCorrect(unpinned);
    forall e | e in block
      ensures e.provider == p && e.model in p.models && Listed(cat, e.model) && !IsPinned(cat, pinned, e.model)
    {
      var k :| 0 <= k < |block| && block[k] == e;
      assert e.model == sorted[k];
      assert sorted[k] in multiset(sorted);
    }
    forall m | m in p.models && Listed(cat, m) && !IsPinned(cat, pinned, m)
      ensures Entry(p, m) in block
    {
      assert m in multiset(unpinned);
      assert m in sorted;
      var k :| 0 <= k < |sorted| && sorted[k] == m;
      assert block[k] == Entry(p, m);
    }
  }

  lemma {:induction false} ProviderEntriesShape(cat: Catalog, pinned: seq<string>, providers: seq<Provider>)
    ensures forall e :: e in ProviderEntries(cat, pinned, providers) ==>
      e.provider in providers && e.model in e.provider.models && Listed(cat, e.model) && !IsPinned(cat, pinned, e.model)
    ensures forall p, m :: p in providers && m in p.models && Listed(cat, m) && !IsPinned(cat, pinned, m) ==>
      Entry(p, m) in ProviderEntries(cat, pinned, providers)
    decreases |providers|
  {
    if providers != [] {
      var init := providers[..|providers| - 1];
      var p := providers[|providers| - 1];
      ProviderEntriesShape(cat, pinned, init);
      BlockShape(cat, pinned, p);
      assert providers == init + [p];
      assert forall q :: q in providers <==> q in init || q == p;
    }
  }

  /** The list offers exactly the listed models of the given providers: no
      embedding or rerank model, and every other model under its provider,
      in the leading block when it is pinned and in its provider's block
      when it is not. */
  lemma OfferedModels(cat: Catalog, pinned: seq<string>, providers: seq<Provider>)
    ensures var lead := LeadEntries(cat, pinned, providers);
      var entries := Entries(cat, pinned, providers);
      (forall k :: 0 <= k < |entries| ==>
        entries[k].provider in providers && entries[k].model in entries[k].provider.models &&
        Listed(cat, entries[k].model)) &&
      (forall k :: 0 <= k < |lead| ==> IsPinned(cat, pinned, entries[k].model)) &&
      (forall k :: |lead| <= k < |entries| ==> !IsPinned(cat, pinned, entries[k].model)) &&
      (forall p, m :: p in providers && m in p.models && Listed(cat, m) ==> Entry(p, m) in entries)
  {
    var lead := LeadEntries(cat, pinned, providers);
    var rest := ProviderEntries(cat, pinned, providers);
    ProviderEntriesShape(cat, pinned, providers);
    var entries := lead + rest;
    forall k | |lead| <= k < |entries| ensures !IsPinned(cat, pinned, entries[k].model) && entries[k].provider in providers
      && entries[k].model in entries[k].provider.models && Listed(cat, entries[k].model) {
      assert entries[k] == rest[k - |lead|];
      assert rest[k - |lead|] in rest;
    }
    forall p, m | p in providers && m in p.models && Listed(cat, m) ensures Entry(p, m) in entries {
      if IsPinned(cat, pinned, m) {
        assert |pinned| > 0;
        assert Entry(p, m) in lead;
      } else {
        assert Entry(p, m) in rest;
      }
    }
  }

  /** Each provider block is sorted by group, then name, and holds exactly
      that provider's unpinned listed models. */
  lemma ProviderBlocksSorted(cat: Catalog, pinned: seq<string>, p: Provider)
    ensures var block := SortByGroupName(Unpinned(cat, pinned, p.models));
      ProviderBlock(cat, pinned, p) == EntriesOf(p, block) &&
      SortedByGroupName(block) &&
      multiset(block) == multiset(Unpinned(cat, pinned, p.models))
  {
    SortByGroupNameCorrect(Unpinned(cat, pinned, p.models));
  }

  // ---------------------------------------------------------------------
  // Opening and closing the mention panel.

  /** The configuration the button opens: symbol '@', multi-select with
      repeats, and the selection counter as `afterAction`. */
  function MentionPanelOptions(title: string, items: seq<ListItem>): (r: OpenOptions)
    ensures r.title == Some(title) && r.list == items && r.symbol == "@"
    ensures r.multiple == Some(true) && r.multipleRepeat == Some(true)
    ensures r.afterAction == Some(CountSelection)
    ensures r.beforeAction.None? && r.onClose.None? && r.triggerInfo.None?
    ensures r.defaultIndex.None? && r.pageSize.None?
  {
    OpenOptions(Some(title), items, None, None, Some(true), Some(true), "@", None, None, Some(CountSelection), None)
  }

  predicate ShowsMentions(p: Panel)
  {
    p.isVisible && p.symbol == "@"
  }

  /** `handleOpenQuickPanel`: close the mention panel when it is showing, open it otherwise. */
  function ToggleStep(s: StoreState, title: string, items: seq<ListItem>): (r: StoreState)
    requires WellFormed(s)
    ensures WellFormed(r)
    ensures ShowsMentions(s.panel) ==> r.panel == s.panel.(isVisible := false) && r.calls == s.calls + CallsOf(s.panel.onClose, CloseOptions(s.panel, None, None))
    ensures !ShowsMentions(s.panel) ==> r.panel == Installed(MentionPanelOptions(title, items)) && r.calls == s.calls
  {
    if ShowsMentions(s.panel) then CloseStep(s, None, None) else OpenStep(s, MentionPanelOptions(title, items))
  }

  method HandleOpenQuickPanel(store: PanelStore, title: string, items: seq<ListItem>)
    requires store.Valid()
    modifies store
    ensures store.Valid()
    ensures store.State() == ToggleStep(old(store.State()), title, items)
  {
    if store.isVisible && store.symbol == "@" {
      store.Close(None, None);
    } else {
      store.Open(MentionPanelOptions(title, items));
    }
  }

  /** The toggle shows the mention panel with multi-select and repeats on and
      the counter installed, and a second press hides it again. */
  lemma ToggleOpensThenCloses(s: StoreState, title: string, items: seq<ListItem>)
    requires WellFormed(s) && !ShowsMentions(s.panel)
    ensures var shown := ToggleStep(s, title, items);
      ShowsMentions(shown.panel) && shown.panel.multiple && shown.panel.multipleRepeat &&
      shown.panel.afterAction == Some(CountSelection) && shown.panel.list == items &&
      shown.panel.title == Some(title) &&
      !ToggleStep(shown, title, items).panel.isVisible
  {
  }
}
