/** What invoking a host callback does to the panel's items. Host functions
    are opaque except `CountSelection`, the `afterAction` that the
    mention-models button installs, which mutates the item it receives in
    place. Because the item object is the one held in the list, the change is
    visible through the list without a new list being installed. */
module CallbackEffects {
  import opened QuickPanelTypes
  import opened ItemLists

  /** The selection-count update of the mention-models `afterAction`: `'add'`
      counts one more selection, anything else toggles between 0 and 1; the
      item is selected exactly when its count is non-zero. */
  function CountSelectionUpdate(item: ListItem, mode: Option<Mode>): (r: ListItem)
    ensures r.isSelected <==> r.selectionCount != 0
    ensures mode == Some(Add) ==> r.selectionCount == item.selectionCount + 1
    ensures mode != Some(Add) ==> (r.selectionCount == 0 <==> item.selectionCount != 0)
    ensures mode != Some(Add) ==> 0 <= r.selectionCount <= 1
    ensures r.(selectionCount := item.selectionCount, isSelected := item.isSelected) == item
  {
    var count := if mode == Some(Add) then item.selectionCount + 1
                 else if item.selectionCount != 0 then 0 else 1;
    item.(selectionCount := count, isSelected := count != 0)
  }

  function CountingSelection(mode: Option<Mode>): ListItem -> ListItem
  {
    (item: ListItem) => CountSelectionUpdate(item, mode)
  }

  /** Toggling twice restores an item whose count is 0 or 1 and whose
      selected flag agrees with it. */
  lemma ToggleTwiceRestores(item: ListItem, mode: Option<Mode>)
    requires mode != Some(Add)
    requires 0 <= item.selectionCount <= 1 && item.isSelected == (item.selectionCount != 0)
    ensures CountSelectionUpdate(CountSelectionUpdate(item, mode), mode) == item
  {
  }

  /** Adding never deselects an item whose count was not negative. */
  lemma AddSelects(item: ListItem)
    requires item.selectionCount >= 0
    ensures CountSelectionUpdate(item, Some(Add)).isSelected
    ensures CountSelectionUpdate(item, Some(Add)).selectionCount >= 1
  {
  }

  /** The items after `cb` was invoked with `opts`. */
  function InvokeEffect(list: seq<ListItem>, cb: Option<Callback>, opts: CallbackOptions): (r: seq<ListItem>)
    ensures |r| == |list|
    ensures cb != Some(CountSelection) || opts.item.None? ==> r == list
  {
    if cb == Some(CountSelection) && opts.item.Some? then
      ReplaceIdentical(list, opts.item.value.id, CountingSelection(opts.mode))
    else list
  }
}
