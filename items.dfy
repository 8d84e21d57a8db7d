/** Identity-keyed updates of an item list: `list.map(item => item === target ? f(item) : item)`. */
module ItemLists {
  import opened QuickPanelTypes

  /** Every item identical to `target` is replaced by `f` of it; every other
      item is kept, in place. */
  function ReplaceIdentical(list: seq<ListItem>, target: ItemId, f: ListItem -> ListItem): (r: seq<ListItem>)
    ensures |r| == |list|
    ensures forall i :: 0 <= i < |list| ==> r[i] == if list[i].id == target then f(list[i]) else list[i]
    decreases |list|
  {
    if list == [] then []
    else [if list[0].id == target then f(list[0]) else list[0]] + ReplaceIdentical(list[1..], target, f)
  }

  /** The updater that `updateItemSelection` applies: `{ ...item, isSelected }`. */
  function Selecting(selected: bool): ListItem -> ListItem
  {
    (item: ListItem) => item.(isSelected := selected)
  }

  predicate Absent(list: seq<ListItem>, target: ItemId)
  {
    forall i :: 0 <= i < |list| ==> list[i].id != target
  }

  /** An absent target leaves the list as it was. */
  lemma {:induction false} ReplaceAbsent(list: seq<ListItem>, target: ItemId, f: ListItem -> ListItem)
    requires Absent(list, target)
    ensures ReplaceIdentical(list, target, f) == list
    decreases |list|
  {
    if list != [] {
      ReplaceAbsent(list[1..], target, f);
    }
  }

  /** `updateItemSelection` keeps length and order and changes nothing but
      `isSelected`, and only on the items identical to the target. */
  lemma SelectionChangesOnlyIsSelected(list: seq<ListItem>, target: ItemId, selected: bool)
    ensures var r := ReplaceIdentical(list, target, Selecting(selected));
      |r| == |list| &&
      forall i :: 0 <= i < |list| ==>
        r[i].(isSelected := list[i].isSelected) == list[i] &&
        r[i].isSelected == (if list[i].id == target then selected else list[i].isSelected)
  {
  }

  /** Selecting twice is selecting once. */
  lemma SelectionIdempotent(list: seq<ListItem>, target: ItemId, selected: bool)
    ensures var once := ReplaceIdentical(list, target, Selecting(selected));
      ReplaceIdentical(once, target, Selecting(selected)) == once
  {
    var once := ReplaceIdentical(list, target, Selecting(selected));
    var twice := ReplaceIdentical(once, target, Selecting(selected));
    assert forall i :: 0 <= i < |once| ==> twice[i] == once[i];
  }
}
