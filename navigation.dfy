/** Keyboard navigation over the filtered list, the list's height, the
    footer's back/forward hint and the suffix each row shows. */
module QuickPanelNavigation {
  import opened QuickPanelTypes

  /** The height of one row, in pixels. */
  const ItemHeight: int := 31

  predicate InRange(i: int, n: int)
  {
    0 <= i < n
  }

  /** Arrow Up: one row up, wrapping from the top to the last row. */
  function StepUp(prev: int, n: int): (r: int)
    ensures InRange(prev, n) ==> InRange(r, n)
    ensures prev > 0 ==> r == prev - 1
    ensures prev <= 0 ==> r == n - 1
  {
    if prev > 0 then prev - 1 else n - 1
  }

  /** Arrow Down: one row down, wrapping from the last row to the top. */
  function StepDown(prev: int, n: int): (r: int)
    ensures InRange(prev, n) ==> InRange(r, n)
    ensures prev < n - 1 ==> r == prev + 1
    ensures prev >= n - 1 ==> r == 0
  {
    if prev < n - 1 then prev + 1 else 0
  }

  /** Page Up: a page up, stopping at the top. */
  function PageUp(prev: int, pageSize: int): (r: int)
    ensures r >= 0
    ensures pageSize >= 0 ==> r <= prev || prev < 0
    ensures prev - pageSize >= 0 ==> r == prev - pageSize
    ensures prev - pageSize < 0 ==> r == 0
  {
    var next := prev - pageSize;
    if next < 0 then 0 else next
  }

  /** Page Down: a page down, stopping at the last row. */
  function PageDown(prev: int, pageSize: int, n: int): (r: int)
    ensures r < n
    ensures prev + pageSize < n ==> r == prev + pageSize
    ensures prev + pageSize >= n ==> r == n - 1
    ensures InRange(prev, n) && pageSize >= 0 ==> InRange(r, n) && r >= prev
  {
    var next := prev + pageSize;
    if next >= n then n - 1 else next
  }

  /** Modifier + Arrow Up: a page up, but from the top row wrap to the last. */
  function JumpUp(prev: int, pageSize: int, n: int): (r: int)
    ensures InRange(prev, n) && pageSize >= 0 ==> InRange(r, n)
    ensures prev == 0 ==> r == n - 1
    ensures prev != 0 && prev - pageSize >= 0 ==> r == prev - pageSize
    ensures prev != 0 && prev - pageSize < 0 ==> r == 0
  {
    var next := prev - pageSize;
    if prev == 0 then n - 1 else if next < 0 then 0 else next
  }

  /** Modifier + Arrow Down: a page down, but from the last row wrap to the top. */
  function JumpDown(prev: int, pageSize: int, n: int): (r: int)
    ensures InRange(prev, n) && pageSize >= 0 ==> InRange(r, n)
    ensures prev + 1 == n ==> r == 0
    ensures prev + 1 != n && prev + pageSize < n ==> r == prev + pageSize
    ensures prev + 1 != n && prev + pageSize >= n ==> r == n - 1
  {
    var next := prev + pageSize;
    if prev + 1 == n then 0 else if next >= n then n - 1 else next
  }

  /** Up and down undo each other inside the list. */
  lemma StepUpUndoesStepDown(prev: int, n: int)
    requires InRange(prev, n)
    ensures StepUp(StepDown(prev, n), n) == prev
    ensures StepDown(StepUp(prev, n), n) == prev
  {
  }

  /** The modifier arrows page like Page Up and Page Down except on the edge
      row they start from. */
  lemma JumpIsPageAwayFromEdges(prev: int, pageSize: int, n: int)
    ensures prev != 0 ==> JumpUp(prev, pageSize, n) == PageUp(prev, pageSize)
    ensures prev + 1 != n ==> JumpDown(prev, pageSize, n) == PageDown(prev, pageSize, n)
  {
  }

  /** The keys the panel listens for; every other key is `Other`. */
  datatype Key = ArrowUp | ArrowDown | PageUpKey | PageDownKey | ArrowLeft | ArrowRight
               | Enter | NumpadEnter | Escape | Other(name: string)

  /** The focus after a key press, for the keys that move it. */
  function IndexAfterKey(key: Key, assist: bool, prev: int, pageSize: int, n: int): (r: int)
    ensures !(key.ArrowUp? || key.ArrowDown? || key.PageUpKey? || key.PageDownKey?) ==> r == prev
    ensures (key.ArrowUp? || key.ArrowDown? || key.PageDownKey?) && InRange(prev, n) && pageSize >= 0 ==> InRange(r, n)
    ensures key.PageUpKey? && InRange(prev, n) && pageSize >= 0 ==> InRange(r, n)
  {
    match key
    case ArrowUp => if assist then JumpUp(prev, pageSize, n) else StepUp(prev, n)
    case ArrowDown => if assist then JumpDown(prev, pageSize, n) else StepDown(prev, n)
    case PageUpKey => PageUp(prev, pageSize)
    case PageDownKey => PageDown(prev, pageSize, n)
    case _ => prev
  }

  /** Whether a key down stops the mouse from moving the focus. */
  function ReleasesMouse(key: Key, assist: bool): (r: bool)
    ensures (key.ArrowUp? || key.ArrowDown? || key.PageUpKey? || key.PageDownKey? || key.Escape?) ==> r
    ensures (key.ArrowLeft? || key.ArrowRight?) ==> (r <==> assist)
    ensures (key.Enter? || key.NumpadEnter? || key.Other?) ==> !r
  {
    key.ArrowUp? || key.ArrowDown? || key.PageUpKey? || key.PageDownKey? || key.Escape? ||
    ((key.ArrowLeft? || key.ArrowRight?) && assist)
  }

  /** The height of the list: one row per item, at most a page of rows. */
  function ListHeight(pageSize: int, count: int): (r: int)
    ensures r <= ItemHeight * pageSize && r <= ItemHeight * count
    ensures r == ItemHeight * pageSize || r == ItemHeight * count
  {
    (if pageSize < count then pageSize else count) * ItemHeight
  }

  /** Whether the list holds a sub-menu item. */
  predicate AnyMenu(list: seq<ListItem>)
  {
    exists i :: 0 <= i < |list| && list[i].isMenu
  }

  /** The footer shows the back/forward hint when there is a sub-menu to
      enter or a panel to go back to. */
  function CanForwardAndBackward(list: seq<ListItem>, historyLength: nat): (r: bool)
    ensures r <==> AnyMenu(list) || historyLength > 0
  {
    HasMenu(list) || historyLength > 0
  }

  /** `list.some(item => item.isMenu)`, a search from the front. */
  function HasMenu(list: seq<ListItem>): (r: bool)
    ensures r <==> AnyMenu(list)
    decreases |list|
  {
    if list == [] then false
    else
      assert forall i :: 1 <= i < |list| ==> list[i] == list[1..][i - 1];
      list[0].isMenu || HasMenu(list[1..])
  }

  /** What the right end of a row shows. */
  datatype Suffix = Custom(content: Content) | CountBadge(count: int) | CheckMark | MenuArrow | NoSuffix

  /** The custom suffix when it is truthy, else the repeat count when above
      one, else a check mark for a selected item, else an arrow for an
      enabled sub-menu. */
  function SuffixFor(item: ListItem): (r: Suffix)
    ensures Truthy(item.suffix) <==> r.Custom?
    ensures r.Custom? ==> r.content == item.suffix.value
    ensures r.CountBadge? <==> !Truthy(item.suffix) && item.selectionCount > 1
    ensures r.CountBadge? ==> r.count == item.selectionCount
    ensures r.CheckMark? <==> !Truthy(item.suffix) && item.selectionCount <= 1 && item.isSelected
    ensures r.MenuArrow? <==> !Truthy(item.suffix) && item.selectionCount <= 1 && !item.isSelected && item.isMenu && !item.disabled
  {
    if Truthy(item.suffix) then Custom(item.suffix.value)
    else if item.selectionCount != 0 && item.selectionCount > 1 then CountBadge(item.selectionCount)
    else if item.isSelected then CheckMark
    else if item.isMenu && !item.disabled then MenuArrow
    else NoSuffix
  }

  /** A row shows nothing on its right only when it has no truthy suffix, is
      not counted above one, not selected, and is not an enabled sub-menu. */
  lemma NoSuffixIffPlain(item: ListItem)
    ensures SuffixFor(item) == NoSuffix <==>
      !Truthy(item.suffix) && item.selectionCount <= 1 && !item.isSelected && (!item.isMenu || item.disabled)
  {
  }
}
