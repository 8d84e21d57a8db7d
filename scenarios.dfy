/** The mention panel end to end: the button opens it, and choosing a model
    in it counts the model and keeps the panel open. */
module MentionScenarios {
  import opened QuickPanelTypes
  import opened ItemLists
  import opened CallbackEffects
  import opened QuickPanelProvider
  import opened QuickPanelView
  import opened MentionModelsButton

  /** A shown panel that counts its selections, as the button opens it. */
  predicate CountingPanel(p: Panel)
  {
    ShowsMentions(p) && p.multiple && p.beforeAction.None? && p.afterAction == Some(CountSelection)
  }

  /** The button's toggle from a hidden mention panel gives a counting panel. */
  lemma ToggleGivesCountingPanel(s: StoreState, title: string, items: seq<ListItem>)
    requires WellFormed(s) && !ShowsMentions(s.panel)
    ensures CountingPanel(ToggleStep(s, title, items).panel)
  {
  }

  /** Choosing a model row with Shift in a counting panel calls the row's
      action and then the counter, leaves the view and the panel open, and
      adds one to the count of that row (and of any row sharing its
      identity), which is then selected exactly when its count is not zero;
      no other row changes. */
  lemma ShiftChoiceCountsUp(w: World, item: ListItem, action: CloseAction, snap: Snapshot)
    requires WorldOK(w) && snap.dom.Valid() && !item.disabled && !item.isMenu
    requires snap.panel == w.store.panel && CountingPanel(w.store.panel)
    requires item.action.Some? && !item.action.value.OpenPanel? && item.action.value != CountSelection
    ensures ItemActionStep(w, item, action, true, snap).view == w.view
    ensures ItemActionStep(w, item, action, true, snap).store.panel.isVisible
    ensures ItemActionStep(w, item, action, true, snap).store.calls == w.store.calls +
      [Invocation(item.action.value, ItemOptions(snap, item, action, true)),
       Invocation(CountSelection, ItemOptions(snap, item, action, true))]
    ensures var before := w.store.panel.list;
      var after := ItemActionStep(w, item, action, true, snap).store.panel.list;
      |after| == |before| &&
      (forall k :: 0 <= k < |before| && before[k].id == item.id ==>
        after[k].selectionCount == before[k].selectionCount + 1 &&
        (after[k].isSelected <==> after[k].selectionCount != 0)) &&
      (forall k :: 0 <= k < |before| && before[k].id != item.id ==> after[k] == before[k])
  {
    var opts := ItemOptions(snap, item, action, true);
    var s0 := w.store;
    var s1 := InvokeStep(s0, s0.panel.beforeAction, opts);
    var s2 := InvokeStep(s1, item.action, opts);
    var s3 := InvokeStep(s2, s0.panel.afterAction, opts);
    assert s1.panel == s0.panel;
    assert s2.panel == s0.panel;
    assert s3.panel.list == ReplaceIdentical(s0.panel.list, item.id, CountingSelection(Some(Add)));
    ItemActionOutcome(w, item, action, true, snap);
    assert ItemActionStep(w, item, action, true, snap).store == s3;
    forall k | 0 <= k < |s0.panel.list| && s0.panel.list[k].id == item.id
      ensures s3.panel.list[k] == CountSelectionUpdate(s0.panel.list[k], Some(Add))
    {
      assert CountingSelection(Some(Add))(s0.panel.list[k]) == CountSelectionUpdate(s0.panel.list[k], Some(Add));
    }
  }
}
