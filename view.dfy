/** The panel view: the interaction state it keeps next to the store (search
    text, focus, history of parent panels, modifier and composition flags),
    the host's text area, and the event handlers that drive both.

    Event handlers read the values of the last render (the snapshot) and
    update state; `Render` then re-runs the filter memo when one of its
    inputs changed, syncs the search-text ref and re-runs the text-area
    listener effect when the panel shows or hides. */
module QuickPanelView {
  import opened QuickPanelTypes
  import opened ItemLists
  import opened CallbackEffects
  import opened QuickPanelProvider
  import opened QuickPanelSearch
  import opened QuickPanelNavigation

  /** The host's text area: its value and caret (`selectionStart`). */
  datatype Surface = Surface(text: string, caret: nat) {
    predicate Valid()
    {
      caret <= |text|
    }
  }

  /** Why the list should scroll to the focused row next. */
  datatype ScrollTrigger = Initial | Keyboard | NoScroll

  /** The inputs of the filter memo; the store's list is identified by its version. */
  datatype FilterKey = FilterKey(defaultIndex: int, isVisible: bool, version: nat, symbol: string, searchText: string)

  datatype ViewState = ViewState(
    searchText: string,
    searchRef: string,                 // `searchTextRef.current`
    syncedSearch: string,              // the search text the ref effect last saw
    index: int,
    filterKey: Option<FilterKey>,      // the memo's inputs at its last run
    history: seq<OpenOptions>,
    composing: bool,
    assist: bool,                      // `isAssistiveKeyPressed`
    mouseOver: bool,
    scroll: ScrollTrigger,
    surface: Surface,
    listener: Listener)

  /** The text-area listener effect, keyed on `ctx.isVisible`: the value it
      last ran with, and the pending timers of its cleanup, each of which
      will empty the search text. */
  datatype Listener = Listener(shown: bool, searchResets: nat)

  datatype World = World(view: ViewState, store: StoreState)

  ghost predicate WorldOK(w: World)
  {
    WellFormed(w.store) && w.view.surface.Valid()
  }

  /** What a handler sees: the values of the last render and the text area. */
  datatype Snapshot = Snapshot(panel: Panel, searchText: string, index: int, assist: bool,
                               list: seq<ListItem>, dom: Surface)

  function KeyOf(s: StoreState, searchText: string): FilterKey
  {
    FilterKey(s.panel.defaultIndex, s.panel.isVisible, s.version, s.panel.symbol, searchText)
  }

  /** The filtered list. Between two runs of the memo the store's items only
      change in place, through `CountSelection`, which leaves every corpus as
      it was (lemma `CountingKeepsFilteredList`); so the memo's cached list is
      this function of the current store. */
  function ItemsOf(svc: TextServices, s: StoreState, searchText: string): seq<ListItem>
  {
    FilterList(svc, s.panel.isVisible, s.panel.symbol, s.panel.list, searchText)
  }

  predicate IsRendered(w: World)
  {
    w.view.filterKey == Some(KeyOf(w.store, w.view.searchText)) && w.view.syncedSearch == w.view.searchText &&
    w.view.listener.shown == w.store.panel.isVisible
  }

  function SnapshotOf(svc: TextServices, w: World): Snapshot
  {
    Snapshot(w.store.panel, w.view.searchText, w.view.index, w.view.assist,
             ItemsOf(svc, w.store, w.view.searchText), w.view.surface)
  }

  /** A render: when an input of the memo changed, the memo re-filters and,
      unless the panel is hidden without a symbol, resets the focus; when the
      search text changed, the effect copies it into the ref; when the panel
      went from shown to hidden, the listener effect's cleanup schedules a
      reset of the search text 200 ms later. */
  function RenderStep(svc: TextServices, w: World): (r: World)
    ensures IsRendered(r) && r.store == w.store
    ensures r.view.(index := w.view.index, filterKey := w.view.filterKey,
                    searchRef := w.view.searchRef, syncedSearch := w.view.syncedSearch,
                    listener := w.view.listener) == w.view
    ensures r.view.listener.shown == w.store.panel.isVisible
    ensures w.view.listener.shown && !w.store.panel.isVisible ==>
      r.view.listener.searchResets == w.view.listener.searchResets + 1
    ensures !(w.view.listener.shown && !w.store.panel.isVisible) ==>
      r.view.listener.searchResets == w.view.listener.searchResets
    ensures IsRendered(w) ==> r == w
  {
    World(EffectStep(RefStep(MemoStep(svc, w)), w.store.panel.isVisible), w.store)
  }

  /** The filter memo of a render. */
  function MemoStep(svc: TextServices, w: World): (r: ViewState)
    ensures r.(index := w.view.index, filterKey := w.view.filterKey) == w.view
    ensures r.filterKey == Some(KeyOf(w.store, w.view.searchText))
    ensures w.view.filterKey == Some(KeyOf(w.store, w.view.searchText)) ==> r == w.view
  {
    var key := KeyOf(w.store, w.view.searchText);
    if w.view.filterKey == Some(key) then w.view
    else if w.store.panel.isVisible || w.store.panel.symbol != "" then
      w.view.(filterKey := Some(key),
              index := FocusAfterFilter(ItemsOf(svc, w.store, w.view.searchText), w.store.panel.defaultIndex))
    else w.view.(filterKey := Some(key))
  }

  /** The effect that copies the search text into the ref. */
  function RefStep(v: ViewState): (r: ViewState)
    ensures r.(searchRef := v.searchRef, syncedSearch := v.syncedSearch) == v
    ensures r.syncedSearch == r.searchText
    ensures v.syncedSearch == v.searchText ==> r == v
  {
    if v.searchText != v.syncedSearch then v.(searchRef := v.searchText, syncedSearch := v.searchText) else v
  }

  /** The listener effect, keyed on `ctx.isVisible`: its cleanup runs when a
      shown panel hides. */
  function EffectStep(v: ViewState, isVisible: bool): (r: ViewState)
    ensures r.(listener := v.listener) == v && r.listener.shown == isVisible
    ensures v.listener.shown && !isVisible ==> r.listener.searchResets == v.listener.searchResets + 1
    ensures !(v.listener.shown && !isVisible) ==> r.listener.searchResets == v.listener.searchResets
    ensures v.listener.shown == isVisible ==> r == v
  {
    var l := v.listener;
    if l.shown == isVisible then v
    else v.(listener := Listener(isVisible, if l.shown then l.searchResets + 1 else l.searchResets))
  }

  /** One of the cleanup's timers fires: the search text becomes empty,
      whether or not the panel has been opened again since. */
  function FireSearchResetStep(w: World): (r: World)
    ensures r.store == w.store
    ensures w.view.listener.searchResets > 0 ==>
      r.view == w.view.(searchText := "", listener := w.view.listener.(searchResets := w.view.listener.searchResets - 1))
    ensures w.view.listener.searchResets == 0 ==> r == w
  {
    var l := w.view.listener;
    if l.searchResets > 0 then w.(view := w.view.(searchText := "", listener := l.(searchResets := l.searchResets - 1)))
    else w
  }

  // ---------------------------------------------------------------------
  // Removing the trigger and search text from the host's text.

  predicate IsSuffix(p: string, s: string)
  {
    |p| <= |s| && s[|s| - |p|..] == p
  }

  /** The ref after its first step: a trigger just before the caret is
      recorded when the ref is empty. */
  function RecordedSearch(dom: Surface, searchRef: string): (r: string)
    requires dom.Valid()
    ensures searchRef != "" ==> r == searchRef
    ensures searchRef == "" && dom.caret > 0 && IsTrigger(dom.text[dom.caret - 1]) ==> r == [dom.text[dom.caret - 1]]
    ensures searchRef == "" && !(dom.caret > 0 && IsTrigger(dom.text[dom.caret - 1])) ==> r == ""
    ensures r == "" <==> searchRef == "" && (dom.caret == 0 || !IsTrigger(dom.text[dom.caret - 1]))
  {
    if dom.caret > 0 && IsTrigger(dom.text[dom.caret - 1]) && searchRef == "" then [dom.text[dom.caret - 1]]
    else searchRef
  }

  /** The text to remove: the ref, with or without its leading trigger. */
  function SearchPattern(includeSymbol: bool, searchRef: string): string
  {
    if includeSymbol then searchRef else StripTrigger(searchRef)
  }

  /** What `clearSearchText` does: the new ref, the rewritten text area when
      the pattern ends the text before the caret, and whether the search text
      is reset. */
  datatype ClearOutcome = ClearOutcome(searchRef: string, rewritten: Option<Surface>, resetsSearch: bool)

  function ClearSearch(includeSymbol: bool, dom: Surface, searchRef: string): (r: ClearOutcome)
    requires dom.Valid()
    ensures r.searchRef == RecordedSearch(dom, searchRef)
    ensures r.resetsSearch <==> SearchPattern(includeSymbol, r.searchRef) != ""
    ensures r.rewritten.Some? ==> r.resetsSearch && r.rewritten.value.Valid() && r.rewritten.value.caret <= dom.caret
  {
    var ref := RecordedSearch(dom, searchRef);
    var p := SearchPattern(includeSymbol, ref);
    if p == "" then ClearOutcome(ref, None, false)
    else if IsSuffix(p, dom.text[..dom.caret]) then
      var start := dom.caret - |p|;
      ClearOutcome(ref, Some(Surface(dom.text[..start] + dom.text[dom.caret..], start)), true)
    else ClearOutcome(ref, None, true)
  }

  /** The search text is reset exactly when there is a pattern; the text is
      rewritten exactly when the pattern ends the text before the caret, and
      then the pattern is cut out: the text before the new caret followed by
      the pattern is the text before the old caret, the text after the caret
      is kept, and the caret moves to the start of the removed span. */
  lemma ClearRemovesPattern(includeSymbol: bool, dom: Surface, searchRef: string)
    requires dom.Valid()
    ensures var r := ClearSearch(includeSymbol, dom, searchRef);
      var p := SearchPattern(includeSymbol, r.searchRef);
      r.searchRef == RecordedSearch(dom, searchRef) &&
      (r.resetsSearch <==> p != "") &&
      (r.rewritten.Some? <==> p != "" && IsSuffix(p, dom.text[..dom.caret])) &&
      (r.rewritten.Some? ==>
        var n := r.rewritten.value;
        n.Valid() && n.caret + |p| == dom.caret &&
        n.text[..n.caret] + p == dom.text[..dom.caret] &&
        n.text[n.caret..] == dom.text[dom.caret..])
  {
    var r := ClearSearch(includeSymbol, dom, searchRef);
    var p := SearchPattern(includeSymbol, r.searchRef);
    if r.rewritten.Some? {
      var start := dom.caret - |p|;
      var n := r.rewritten.value;
      assert n.text == dom.text[..start] + dom.text[dom.caret..];
      assert n.text[..n.caret] == dom.text[..start];
      assert n.text[n.caret..] == dom.text[dom.caret..];
      assert dom.text[..dom.caret] == dom.text[..start] + dom.text[..dom.caret][start..];
    }
  }

  /** Clearing twice against the same text area is clearing once: the second
      call sees the ref the first one recorded and removes the same span. */
  lemma ClearTwiceIsClearOnce(includeSymbol: bool, dom: Surface, searchRef: string)
    requires dom.Valid()
    ensures ClearSearch(includeSymbol, dom, ClearSearch(includeSymbol, dom, searchRef).searchRef) ==
            ClearSearch(includeSymbol, dom, searchRef)
  {
  }

  /** `clearSearchText` on the view: only the ref, the text area and the
      search text change. */
  function ClearStep(v: ViewState, includeSymbol: bool, snap: Snapshot): (r: ViewState)
    requires snap.dom.Valid()
    ensures r.(searchRef := v.searchRef, surface := v.surface, searchText := v.searchText) == v
    ensures var out := ClearSearch(includeSymbol, snap.dom, v.searchRef);
      r.searchRef == out.searchRef &&
      (out.rewritten.Some? ==> r.surface == out.rewritten.value) &&
      (out.rewritten.None? ==> r.surface == v.surface) &&
      (out.resetsSearch ==> r.searchText == "") &&
      (!out.resetsSearch ==> r.searchText == v.searchText)
  {
    var out := ClearSearch(includeSymbol, snap.dom, v.searchRef);
    v.(searchRef := out.searchRef,
       surface := if out.rewritten.Some? then out.rewritten.value else v.surface,
       searchText := if out.resetsSearch then "" else v.searchText)
  }

  // ---------------------------------------------------------------------
  // Reading the search text from the host's text.

  /** `lastIndexOf`: the last position of `c`, or -1. */
  function LastIndexOf(s: string, c: char): (r: int)
    ensures -1 <= r < |s|
    ensures r >= 0 ==> s[r] == c
    ensures forall k :: r < k < |s| ==> s[k] != c
    decreases |s|
  {
    if s == [] then -1
    else if s[|s| - 1] == c then |s| - 1
    else LastIndexOf(s[..|s| - 1], c)
  }

  /** `Math.max(lastIndexOf('/'), lastIndexOf('@'))`: the last trigger. */
  function SymbolIndex(s: string): (r: int)
    ensures -1 <= r < |s|
    ensures r >= 0 ==> IsTrigger(s[r])
    ensures forall k :: r < k < |s| ==> !IsTrigger(s[k])
  {
    var slash := LastIndexOf(s, '/');
    var at := LastIndexOf(s, '@');
    if slash < at then at else slash
  }

  /** The search text for a text area: from the last trigger before the caret
      up to the caret, or None when no trigger precedes the caret. */
  function SearchTextAt(dom: Surface): (r: Option<string>)
    requires dom.Valid()
    ensures r.Some? ==>
      var s := r.value;
      IsSuffix(s, dom.text[..dom.caret]) && |s| >= 1 && IsTrigger(s[0]) &&
      forall k :: 1 <= k < |s| ==> !IsTrigger(s[k])
    ensures r.None? <==> forall k :: 0 <= k < dom.caret ==> !IsTrigger(dom.text[k])
  {
    var before := dom.text[..dom.caret];
    var i := SymbolIndex(before);
    if i != -1 then
      assert forall k :: 1 <= k < |before[i..]| ==> before[i..][k] == before[i + k];
      Some(before[i..])
    else
      assert forall k :: 0 <= k < dom.caret ==> dom.text[k] == before[k];
      None
  }

  // ---------------------------------------------------------------------
  // Item actions and closing.

  /** The options every callback of an item action receives. */
  function ItemOptions(snap: Snapshot, item: ListItem, action: CloseAction, shift: bool): (o: CallbackOptions)
    ensures o.item == Some(item) && o.action == action && o.symbol == snap.panel.symbol
    ensures o.searchText == Some(snap.searchText)
    ensures o.multiple == Some(snap.assist)
    ensures o.mode == Some(Add) <==> shift
    ensures o.mode.Some? && o.triggerInfo.None?
  {
    CallbackOptions(snap.panel.symbol, action, Some(item), Some(snap.searchText), Some(snap.assist),
                    Some(if shift then Add else Toggle), None)
  }

  /** The entry pushed on the history when a sub-menu is entered. */
  function HistoryEntry(p: Panel, index: int): (r: OpenOptions)
    ensures r.title == p.title && r.list == p.list && r.symbol == p.symbol
    ensures r.defaultIndex == Some(index) && r.pageSize == Some(p.pageSize) && r.multiple == Some(p.multiple)
    ensures r.onClose == p.onClose && r.beforeAction == p.beforeAction && r.afterAction == p.afterAction
    ensures r.multipleRepeat.None? && r.triggerInfo.None?
  {
    OpenOptions(p.title, p.list, Some(index), Some(p.pageSize), Some(p.multiple), None,
                p.symbol, None, p.beforeAction, p.afterAction, p.onClose)
  }

  /** Reopening a history entry restores the configuration it was taken from,
      with the focused row as the default index; `multipleRepeat` and
      `triggerInfo` are not saved and come back as their defaults. */
  lemma ReopenRestoresPanel(p: Panel, index: int)
    ensures Installed(HistoryEntry(p, index)) ==
      p.(isVisible := true, defaultIndex := index, multipleRepeat := DefaultMultipleRepeat, triggerInfo := None)
  {
  }

  /** `beforeAction`, the item's action, then `afterAction`. */
  function Dispatched(s: StoreState, panel: Panel, item: ListItem, opts: CallbackOptions): (r: StoreState)
    requires WellFormed(s)
    ensures WellFormed(r)
    ensures r.calls == s.calls + CallsOf(panel.beforeAction, opts) + CallsOf(item.action, opts) + CallsOf(panel.afterAction, opts)
  {
    InvokeStep(InvokeStep(InvokeStep(s, panel.beforeAction, opts), item.action, opts), panel.afterAction, opts)
  }

  /** Close actions after which the trigger and search text are erased. */
  predicate ErasesInput(action: CloseAction)
  {
    action.Some? && action.value != "" && action.value != OutsideClickAction &&
    action.value != EscAction && action.value != EnterEmptyAction
  }

  /** `handleClose`. */
  function CloseViewStep(w: World, action: CloseAction, snap: Snapshot): (r: World)
    requires WorldOK(w) && snap.dom.Valid()
    ensures WorldOK(r)
    ensures r.store == CloseWith(w.store, snap.panel, action, None)
    ensures r.view.history == [] && r.view.scroll == Initial
    ensures action == Some(DeleteSymbolAction) ==> r.view == w.view.(history := [], scroll := Initial, surface := snap.dom)
    ensures action != Some(DeleteSymbolAction) && ErasesInput(action) ==>
      r.view == ClearStep(w.view.(history := [], scroll := Initial), true, snap)
    ensures action != Some(DeleteSymbolAction) && !ErasesInput(action) ==> r.view == w.view.(history := [], scroll := Initial)
  {
    var v := w.view.(history := [], scroll := Initial);
    var s := CloseWith(w.store, snap.panel, action, None);
    if action == Some(DeleteSymbolAction) then World(v.(surface := snap.dom), s)
    else if ErasesInput(action) then World(ClearStep(v, true, snap), s)
    else World(v, s)
  }

  /** What follows the callbacks of an item action: a sub-menu is pushed on
      the history and the search text cleared, a multi-select gesture keeps
      the panel open, anything else closes it. */
  function SettleStep(w: World, item: ListItem, action: CloseAction, shift: bool, snap: Snapshot): (r: World)
    requires WorldOK(w) && snap.dom.Valid()
    ensures WorldOK(r)
  {
    if item.isMenu then
      World(ClearStep(w.view.(history := w.view.history + [HistoryEntry(snap.panel, snap.index)]), false, snap), w.store)
    else if snap.panel.multiple && (snap.assist || shift) then w
    else CloseViewStep(w, action, snap)
  }

  /** `handleItemAction`: nothing for a disabled item; otherwise the three
      callbacks, then `SettleStep`. */
  function ItemActionStep(w: World, item: ListItem, action: CloseAction, shift: bool, snap: Snapshot): (r: World)
    requires WorldOK(w) && snap.dom.Valid()
    ensures WorldOK(r)
  {
    if item.disabled then w
    else SettleStep(World(w.view, Dispatched(w.store, snap.panel, item, ItemOptions(snap, item, action, shift))),
                    item, action, shift, snap)
  }

  // ---------------------------------------------------------------------
  // Events.

  datatype KeyEvent = KeyEvent(key: Key, primary: bool, shift: bool)

  predicate IsNavigationKey(key: Key)
  {
    key.ArrowUp? || key.ArrowDown? || key.PageUpKey? || key.PageDownKey?
  }

  /** Arrow and page keys move the focus by the rendered list and page size. */
  function NavigateStep(w: World, key: Key, snap: Snapshot): (r: World)
    ensures r.store == w.store
    ensures r.view.(index := w.view.index, scroll := w.view.scroll) == w.view && r.view.scroll == Keyboard
    ensures r.view.index == IndexAfterKey(key, snap.assist, w.view.index, snap.panel.pageSize, |snap.list|)
    ensures InRange(w.view.index, |snap.list|) && snap.panel.pageSize >= 0 ==> InRange(r.view.index, |snap.list|)
  {
    w.(view := w.view.(scroll := Keyboard, index := IndexAfterKey(key, snap.assist, w.view.index, snap.panel.pageSize, |snap.list|)))
  }

  /** Modifier + Arrow Left: back to the last panel on the history. */
  function BackStep(w: World, snap: Snapshot): (r: World)
    requires WorldOK(w) && snap.dom.Valid()
    ensures WorldOK(r)
  {
    if snap.assist && w.view.history != [] then
      var v := ClearStep(w.view.(scroll := Initial), false, snap);
      World(v.(history := v.history[..|v.history| - 1]), OpenStep(w.store, v.history[|v.history| - 1]))
    else w
  }

  /** Modifier + Arrow Right: enter the focused sub-menu. */
  function ForwardStep(w: World, snap: Snapshot): (r: World)
    requires WorldOK(w) && snap.dom.Valid()
    ensures WorldOK(r)
  {
    if snap.assist && InRange(snap.index, |snap.list|) && snap.list[snap.index].isMenu then
      ItemActionStep(World(ClearStep(w.view.(scroll := Initial), false, snap), w.store),
                     snap.list[snap.index], Some(EnterAction), false, snap)
    else w
  }

  /** Enter: act on the focused item, or close when nothing is focused. */
  function EnterStep(w: World, snap: Snapshot, shift: bool): (r: World)
    requires WorldOK(w) && snap.dom.Valid()
    ensures WorldOK(r)
  {
    if w.view.composing then w
    else if InRange(snap.index, |snap.list|) then
      ItemActionStep(World(w.view.(mouseOver := false), w.store), snap.list[snap.index], Some(EnterAction), shift, snap)
    else CloseViewStep(w, Some(EnterEmptyAction), snap)
  }

  /** The `switch` on the key: navigation, back, forward, enter or close;
      any other key changes nothing. */
  function KeyActionStep(w: World, key: Key, shift: bool, snap: Snapshot): (r: World)
    requires WorldOK(w) && snap.dom.Valid()
    ensures WorldOK(r)
    ensures key.Other? ==> r == w
    ensures IsNavigationKey(key) ==> r == NavigateStep(w, key, snap)
  {
    if IsNavigationKey(key) then NavigateStep(w, key, snap)
    else if key.ArrowLeft? then BackStep(w, snap)
    else if key.ArrowRight? then ForwardStep(w, snap)
    else if key.Enter? || key.NumpadEnter? then EnterStep(w, snap, shift)
    else if key.Escape? then CloseViewStep(w, Some(EscAction), snap)
    else w
  }

  /** A key down while the panel is shown. */
  function KeyDownStep(svc: TextServices, w: World, ev: KeyEvent): (r: World)
    requires WorldOK(w)
    ensures WorldOK(r)
  {
    if !w.store.panel.isVisible then w
    else
      var snap := SnapshotOf(svc, w);
      var v1 := if ev.primary then w.view.(assist := true) else w.view;
      var v2 := if ReleasesMouse(ev.key, snap.assist) then v1.(mouseOver := false) else v1;
      KeyActionStep(World(v2, w.store), ev.key, ev.shift, snap)
  }

  /** A key up without the modifier releases it. */
  function KeyUpStep(w: World, primary: bool): (r: World)
    ensures r.store == w.store && r.view == w.view.(assist := r.view.assist)
    ensures r.view.assist <==> w.view.assist && (primary || !w.store.panel.isVisible)
  {
    if w.store.panel.isVisible && !primary then w.(view := w.view.(assist := false)) else w
  }

  /** An edit of the host's text: the new value and caret become the text
      area; while the panel is shown and no composition is under way, the
      search text is re-read, or the panel closes when the trigger is gone. */
  function InputStep(svc: TextServices, w: World, dom: Surface): (r: World)
    requires WorldOK(w) && dom.Valid()
    ensures WorldOK(r)
    ensures r.view.surface == dom
  {
    var w1 := w.(view := w.view.(surface := dom));
    if !w.store.panel.isVisible || w.view.composing then w1
    else
      match SearchTextAt(dom)
      case Some(s) => w1.(view := w1.view.(searchText := s))
      case None => CloseViewStep(w1, Some(DeleteSymbolAction), SnapshotOf(svc, w1))
  }

  function CompositionUpdateStep(w: World): (r: World)
    ensures r.store == w.store && r.view == w.view.(composing := r.view.composing)
    ensures r.view.composing <==> w.view.composing || w.store.panel.isVisible
  {
    if w.store.panel.isVisible then w.(view := w.view.(composing := true)) else w
  }

  function CompositionEndStep(svc: TextServices, w: World, dom: Surface): (r: World)
    requires WorldOK(w) && dom.Valid()
    ensures WorldOK(r)
  {
    if w.store.panel.isVisible then InputStep(svc, w.(view := w.view.(composing := false)), dom)
    else w.(view := w.view.(surface := dom))
  }

  /** A click outside the input bar and outside the panel closes it. */
  function ClickOutsideStep(svc: TextServices, w: World, inInputBar: bool, inPanel: bool): (r: World)
    requires WorldOK(w)
    ensures WorldOK(r)
  {
    if w.store.panel.isVisible && !inInputBar && !inPanel then
      CloseViewStep(w, Some(OutsideClickAction), SnapshotOf(svc, w))
    else w
  }

  /** Rows take pointer events only once the mouse has moved in the panel. */
  predicate RowsLive(w: World)
  {
    w.store.panel.isVisible && w.view.mouseOver
  }

  function RowClickStep(svc: TextServices, w: World, row: int, shift: bool): (r: World)
    requires WorldOK(w)
    ensures WorldOK(r)
  {
    var snap := SnapshotOf(svc, w);
    if RowsLive(w) && InRange(row, |snap.list|) then
      ItemActionStep(w, snap.list[row], Some(ClickAction), shift, snap)
    else w
  }

  function MouseEnterStep(svc: TextServices, w: World, row: int): (r: World)
    ensures r.store == w.store && r.view == w.view.(index := r.view.index)
    ensures RowsLive(w) && InRange(row, |ItemsOf(svc, w.store, w.view.searchText)|) ==> r.view.index == row
    ensures !RowsLive(w) ==> r == w
  {
    if RowsLive(w) && InRange(row, |ItemsOf(svc, w.store, w.view.searchText)|) then w.(view := w.view.(index := row))
    else w
  }

  function MouseMoveStep(w: World): (r: World)
    ensures r.store == w.store && r.view == w.view.(mouseOver := r.view.mouseOver, scroll := r.view.scroll)
    ensures w.store.panel.isVisible ==> r.view.mouseOver && r.view.scroll == Initial
    ensures !w.store.panel.isVisible ==> r == w
  {
    if w.store.panel.isVisible then w.(view := w.view.(mouseOver := true, scroll := Initial)) else w
  }

  // ---------------------------------------------------------------------
  // Properties of the handlers.

  /** The memo's cached list stays equal to a fresh filter after the
      selection counter updates an item in place. */
  lemma CountingKeepsFilteredList(svc: TextServices, list: seq<ListItem>, target: ItemId, mode: Option<Mode>, searchText: string)
    ensures Filter(svc, ReplaceIdentical(list, target, CountingSelection(mode)), searchText) ==
            ReplaceIdentical(Filter(svc, list, searchText), target, CountingSelection(mode))
  {
    forall x: ListItem ensures Corpus(CountingSelection(mode)(x)) == Corpus(x) {
      assert CountingSelection(mode)(x) == CountSelectionUpdate(x, mode);
    }
    FilterCommutesWithUpdate(svc, list, target, CountingSelection(mode), searchText);
  }

  /** A disabled item takes no action at all: no callback, no state change. */
  lemma DisabledItemDoesNothing(w: World, item: ListItem, action: CloseAction, shift: bool, snap: Snapshot)
    requires WorldOK(w) && snap.dom.Valid() && item.disabled
    ensures ItemActionStep(w, item, action, shift, snap) == w
  {
  }

  /** An enabled item calls `beforeAction`, its action and `afterAction`, in
      that order; then a sub-menu pushes exactly one history entry and stays
      open, a multi-select gesture stays open and changes nothing else, and
      every other case closes with the given action. */
  lemma ItemActionOutcome(w: World, item: ListItem, action: CloseAction, shift: bool, snap: Snapshot)
    requires WorldOK(w) && snap.dom.Valid() && !item.disabled
    ensures var opts := ItemOptions(snap, item, action, shift);
      var d := Dispatched(w.store, snap.panel, item, opts);
      var r := ItemActionStep(w, item, action, shift, snap);
      (item.isMenu ==>
        r.store == d && r.view.history == w.view.history + [HistoryEntry(snap.panel, snap.index)] &&
        r.view == ClearStep(w.view.(history := w.view.history + [HistoryEntry(snap.panel, snap.index)]), false, snap)) &&
      (!item.isMenu && snap.panel.multiple && (snap.assist || shift) ==> r == World(w.view, d)) &&
      (!item.isMenu && !(snap.panel.multiple && (snap.assist || shift)) ==>
        r.store == CloseWith(d, snap.panel, action, None) && !r.store.panel.isVisible && r.view.history == [] &&
        r.store.calls == d.calls + CallsOf(snap.panel.onClose, CloseOptions(snap.panel, action, None)))
  {
  }

  /** The close at the end of an item action is the one the last render
      handed out: when the item's action opens another panel, that panel is
      installed and hidden, and the `onClose` called is the rendered
      panel's, with its symbol, not the new panel's. */
  lemma ActionOpeningPanelClosesRenderedOne(w: World, item: ListItem, action: CloseAction, shift: bool,
                                            snap: Snapshot, o: OpenOptions)
    requires WorldOK(w) && snap.dom.Valid() && !item.disabled && !item.isMenu
    requires item.action == Some(OpenPanel(o)) && snap.panel.beforeAction.None? && snap.panel.afterAction.None?
    requires !(snap.panel.multiple && (snap.assist || shift))
    ensures var r := ItemActionStep(w, item, action, shift, snap);
      r.store.panel == Installed(o).(isVisible := false) &&
      r.store.calls == w.store.calls + [Invocation(OpenPanel(o), ItemOptions(snap, item, action, shift))] +
                       CallsOf(snap.panel.onClose, CloseOptions(snap.panel, action, None))
  {
    ItemActionOutcome(w, item, action, shift, snap);
  }

  /** Escape closes the panel with "esc", invokes `onClose` once when there is
      one, and leaves the host's text as it was. */
  lemma EscapeClosesOnce(svc: TextServices, w: World, primary: bool, shift: bool)
    requires WorldOK(w) && w.store.panel.isVisible
    ensures var r := KeyDownStep(svc, w, KeyEvent(Escape, primary, shift));
      r.store == CloseStep(w.store, Some(EscAction), None) &&
      r.store.calls == w.store.calls + CallsOf(w.store.panel.onClose, CloseOptions(w.store.panel, Some(EscAction), None)) &&
      r.view.surface == w.view.surface && !r.store.panel.isVisible
  {
  }

  /** Arrow and page keys keep a focus that is inside the list inside it. */
  lemma NavigationStaysInRange(svc: TextServices, w: World, ev: KeyEvent)
    requires WorldOK(w) && IsNavigationKey(ev.key) && w.store.panel.pageSize >= 0
    requires InRange(w.view.index, |ItemsOf(svc, w.store, w.view.searchText)|)
    ensures InRange(KeyDownStep(svc, w, ev).view.index, |ItemsOf(svc, w.store, w.view.searchText)|)
    ensures KeyDownStep(svc, w, ev).store == w.store
  {
  }

  /** Modifier + Arrow Left with a history reopens its last entry and pops it. */
  lemma BackReopensLastEntry(svc: TextServices, w: World, shift: bool)
    requires WorldOK(w) && w.store.panel.isVisible && w.view.assist && w.view.history != []
    ensures var r := KeyDownStep(svc, w, KeyEvent(ArrowLeft, true, shift));
      r.store == OpenStep(w.store, w.view.history[|w.view.history| - 1]) &&
      r.view.history == w.view.history[..|w.view.history| - 1] &&
      r.store.panel == Installed(w.view.history[|w.view.history| - 1]) &&
      r.view == ClearStep(w.view.(mouseOver := false, scroll := Initial), false, SnapshotOf(svc, w))
                  .(history := w.view.history[..|w.view.history| - 1])
  {
    var snap := SnapshotOf(svc, w);
    var w2 := World(w.view.(mouseOver := false), w.store);
    assert KeyDownStep(svc, w, KeyEvent(ArrowLeft, true, shift)) == BackStep(w2, snap);
  }

  /** Without the modifier, Arrow Left and Arrow Right change nothing. */
  lemma SideArrowsNeedModifier(svc: TextServices, w: World, ev: KeyEvent)
    requires WorldOK(w) && !w.view.assist && !ev.primary && (ev.key.ArrowLeft? || ev.key.ArrowRight?)
    ensures KeyDownStep(svc, w, ev) == w
  {
  }

  /** Enter with nothing focused closes with "enter_empty" and leaves the text. */
  lemma EnterOnEmptyCloses(svc: TextServices, w: World, ev: KeyEvent)
    requires WorldOK(w) && w.store.panel.isVisible && !w.view.composing
    requires ev.key.Enter? || ev.key.NumpadEnter?
    requires !InRange(w.view.index, |ItemsOf(svc, w.store, w.view.searchText)|)
    ensures KeyDownStep(svc, w, ev).store == CloseStep(w.store, Some(EnterEmptyAction), None)
    ensures KeyDownStep(svc, w, ev).view.surface == w.view.surface
  {
  }

  /** An edit while the panel is shown re-reads the search text from the last
      trigger before the caret, or closes with "delete-symbol" when no trigger
      is left; during a composition it only updates the text. */
  lemma InputOutcome(svc: TextServices, w: World, dom: Surface)
    requires WorldOK(w) && dom.Valid() && w.store.panel.isVisible
    ensures var r := InputStep(svc, w, dom);
      (w.view.composing ==> r.store == w.store && r.view == w.view.(surface := dom)) &&
      (!w.view.composing && SearchTextAt(dom).Some? ==>
        r.store == w.store && r.view == w.view.(surface := dom, searchText := SearchTextAt(dom).value)) &&
      (!w.view.composing && SearchTextAt(dom).None? ==>
        r.store == CloseStep(w.store, Some(DeleteSymbolAction), None) && r.view.surface == dom)
  {
  }

  /** A render after a change of the memo's inputs, on a shown panel, focuses
      the default row when something passed the filter and -1 otherwise. */
  lemma RenderResetsFocus(svc: TextServices, w: World)
    requires w.view.filterKey != Some(KeyOf(w.store, w.view.searchText)) && w.store.panel.isVisible
    ensures var items := ItemsOf(svc, w.store, w.view.searchText);
      var r := RenderStep(svc, w);
      (items == [] ==> r.view.index == -1) &&
      (items != [] ==> r.view.index == w.store.panel.defaultIndex) &&
      (InRange(w.store.panel.defaultIndex, |items|) ==> InRange(r.view.index, |items|))
  {
  }

  /** Modifier + Arrow Right on a focused, enabled sub-menu item runs its
      callbacks and pushes the current panel, with the focused row, on the
      history. */
  lemma ForwardEntersMenu(svc: TextServices, w: World, shift: bool)
    requires WorldOK(w) && w.store.panel.isVisible && w.view.assist
    requires InRange(w.view.index, |ItemsOf(svc, w.store, w.view.searchText)|)
    requires ItemsOf(svc, w.store, w.view.searchText)[w.view.index].isMenu
    requires !ItemsOf(svc, w.store, w.view.searchText)[w.view.index].disabled
    ensures var snap := SnapshotOf(svc, w);
      var item := snap.list[w.view.index];
      var r := KeyDownStep(svc, w, KeyEvent(ArrowRight, true, shift));
      r.store == Dispatched(w.store, w.store.panel, item, ItemOptions(snap, item, Some(EnterAction), false)) &&
      r.view.history == w.view.history + [HistoryEntry(w.store.panel, w.view.index)] &&
      r.view == ClearStep(ClearStep(w.view.(mouseOver := false, scroll := Initial), false, snap)
                            .(history := w.view.history + [HistoryEntry(w.store.panel, w.view.index)]), false, snap)
  {
    var snap := SnapshotOf(svc, w);
    var w1 := World(ClearStep(w.view.(mouseOver := false, scroll := Initial), false, snap), w.store);
    ForwardActsOnFocused(svc, w, shift);
    ItemActionOutcome(w1, snap.list[w.view.index], Some(EnterAction), false, snap);
  }

  /** Modifier + Arrow Right on a focused sub-menu clears the search and acts
      on that item with "enter". */
  lemma ForwardActsOnFocused(svc: TextServices, w: World, shift: bool)
    requires WorldOK(w) && w.store.panel.isVisible && w.view.assist
    requires InRange(w.view.index, |ItemsOf(svc, w.store, w.view.searchText)|)
    requires ItemsOf(svc, w.store, w.view.searchText)[w.view.index].isMenu
    ensures var snap := SnapshotOf(svc, w);
      KeyDownStep(svc, w, KeyEvent(ArrowRight, true, shift)) ==
      ItemActionStep(World(ClearStep(w.view.(mouseOver := false, scroll := Initial), false, snap), w.store),
                     snap.list[w.view.index], Some(EnterAction), false, snap)
  {
    var snap := SnapshotOf(svc, w);
    var w2 := World(w.view.(mouseOver := false), w.store);
    assert KeyDownStep(svc, w, KeyEvent(ArrowRight, true, shift)) == ForwardStep(w2, snap);
  }

  /** A click outside both the input bar and the panel closes a shown panel
      with "outsideclick" and leaves the host's text; any other click changes
      nothing. */
  lemma ClickOutsideCloses(svc: TextServices, w: World, inInputBar: bool, inPanel: bool)
    requires WorldOK(w)
    ensures var r := ClickOutsideStep(svc, w, inInputBar, inPanel);
      (w.store.panel.isVisible && !inInputBar && !inPanel ==>
        r.store == CloseStep(w.store, Some(OutsideClickAction), None) &&
        !r.store.panel.isVisible && r.view.surface == w.view.surface) &&
      (!w.store.panel.isVisible || inInputBar || inPanel ==> r == w)
  {
  }

  /** Before the mouse has moved in the panel, a row click does nothing; after,
      a click on a plain enabled row outside a multi-select gesture runs its
      callbacks and closes with "click". */
  lemma RowClickOutcome(svc: TextServices, w: World, row: int, shift: bool)
    requires WorldOK(w)
    ensures !RowsLive(w) ==> RowClickStep(svc, w, row, shift) == w
    ensures var snap := SnapshotOf(svc, w);
      RowsLive(w) && InRange(row, |snap.list|) && !snap.list[row].disabled && !snap.list[row].isMenu &&
      !(w.store.panel.multiple && (w.view.assist || shift)) ==>
        var item := snap.list[row];
        var r := RowClickStep(svc, w, row, shift);
        r.store == CloseWith(Dispatched(w.store, w.store.panel, item, ItemOptions(snap, item, Some(ClickAction), shift)),
                             w.store.panel, Some(ClickAction), None) &&
        !r.store.panel.isVisible
  {
    var snap := SnapshotOf(svc, w);
    if RowsLive(w) && InRange(row, |snap.list|) && !snap.list[row].disabled {
      ItemActionOutcome(w, snap.list[row], Some(ClickAction), shift, snap);
    }
  }

  /** The end of a composition on a shown panel ends the composing state and
      reads the search text as an edit would. */
  lemma CompositionEndReadsSearch(svc: TextServices, w: World, dom: Surface)
    requires WorldOK(w) && dom.Valid() && w.store.panel.isVisible
    ensures var r := CompositionEndStep(svc, w, dom);
      !r.view.composing && r.view.surface == dom &&
      (SearchTextAt(dom).Some? ==> r.store == w.store && r.view.searchText == SearchTextAt(dom).value) &&
      (SearchTextAt(dom).None? ==> r.store == CloseStep(w.store, Some(DeleteSymbolAction), None))
  {
    InputOutcome(svc, w.(view := w.view.(composing := false)), dom);
  }

  /** Escape, then the 200 ms reset, then a reopen: the search text typed
      before the close is gone and the reopened panel shows its whole list. */
  lemma ResetBeforeReopenShowsEverything(svc: TextServices, w: World, primary: bool, shift: bool, o: OpenOptions)
    requires WorldOK(w) && w.store.panel.isVisible && w.view.listener == Listener(true, 0)
    ensures var c := RenderStep(svc, KeyDownStep(svc, w, KeyEvent(Escape, primary, shift)));
      var f := RenderStep(svc, FireSearchResetStep(c));
      var r := RenderStep(svc, World(f.view, OpenStep(f.store, o)));
      c.view.listener == Listener(false, 1) && !c.store.panel.isVisible &&
      f.view.searchText == "" && f.view.listener == Listener(false, 0) &&
      r.view.searchText == "" && r.store.panel == Installed(o) &&
      ItemsOf(svc, r.store, r.view.searchText) == o.list
  {
    EscapeClosesOnce(svc, w, primary, shift);
    EmptyQueryKeepsEverything(svc, o.list, "");
  }

  /** Escape, a render, a reopen and a render leave one reset pending in a
      shown panel. */
  lemma EscapeThenReopen(svc: TextServices, w: World, primary: bool, shift: bool, o: OpenOptions)
    requires WorldOK(w) && w.store.panel.isVisible && !w.view.composing && w.view.listener == Listener(true, 0)
    ensures var c := RenderStep(svc, KeyDownStep(svc, w, KeyEvent(Escape, primary, shift)));
      var p := RenderStep(svc, World(c.view, OpenStep(c.store, o)));
      WorldOK(p) && p.store.panel.isVisible && !p.view.composing && p.view.listener == Listener(true, 1)
  {
    EscapeClosesOnce(svc, w, primary, shift);
    var k := KeyDownStep(svc, w, KeyEvent(Escape, primary, shift));
    assert k.view.listener == Listener(true, 0) && !k.store.panel.isVisible && !k.view.composing;
  }

  /** A reopen before the reset fires does not cancel it: a search typed into
      the reopened panel is emptied by the earlier close's reset, although
      the text area still holds the trigger and the search. */
  lemma StaleResetEmptiesReopenedSearch(svc: TextServices, w: World, primary: bool, shift: bool,
                                       o: OpenOptions, dom: Surface)
    requires WorldOK(w) && w.store.panel.isVisible && !w.view.composing && w.view.listener == Listener(true, 0)
    requires dom.Valid() && SearchTextAt(dom).Some?
    ensures var c := RenderStep(svc, KeyDownStep(svc, w, KeyEvent(Escape, primary, shift)));
      var p := RenderStep(svc, World(c.view, OpenStep(c.store, o)));
      var t := RenderStep(svc, InputStep(svc, p, dom));
      var r := RenderStep(svc, FireSearchResetStep(t));
      p.view.listener == Listener(true, 1) &&
      t.view.searchText == SearchTextAt(dom).value &&
      r.store.panel.isVisible && r.view.surface == dom && r.view.searchText == "" && r.view.listener == Listener(true, 0)
  {
    EscapeThenReopen(svc, w, primary, shift, o);
  }

  // ---------------------------------------------------------------------
  // The view object.

  class PanelView {
    const store: PanelStore
    const svc: TextServices
    var searchText: string
    var searchRef: string
    var syncedSearch: string
    var index: int
    var filterKey: Option<FilterKey>
    var history: seq<OpenOptions>
    var composing: bool
    var assist: bool
    var mouseOver: bool
    var scroll: ScrollTrigger
    var surface: Surface
    var listener: Listener

    function Local(): ViewState
      reads this
    {
      ViewState(searchText, searchRef, syncedSearch, index, filterKey, history, composing, assist, mouseOver, scroll, surface,
                listener)
    }

    function Now(): World
      reads this, store
    {
      World(Local(), store.State())
    }

    ghost predicate Valid()
      reads this, store
    {
      store.Valid() && surface.Valid()
    }

    predicate Rendered()
      reads this, store
    {
      IsRendered(Now())
    }

    function Snap(): Snapshot
      reads this, store
    {
      SnapshotOf(svc, Now())
    }

    /** The filtered list the view shows. */
    function Items(): seq<ListItem>
      reads this, store
    {
      ItemsOf(svc, store.State(), searchText)
    }

    /** Mounting: the focus starts at the store's default index, then the first render. */
    constructor (store: PanelStore, svc: TextServices, dom: Surface)
      requires store.Valid() && dom.Valid()
      ensures this.store == store && this.svc == svc
      ensures Valid() && Rendered()
      ensures Now() == RenderStep(svc, World(ViewState("", "", "", store.defaultIndex, None, [], false, false, false, Initial, dom, Listener(false, 0)), store.State()))
    {
      this.store := store;
      this.svc := svc;
      searchText, searchRef, syncedSearch := "", "", "";
      index, filterKey := store.defaultIndex, None;
      history, composing, assist, mouseOver, scroll := [], false, false, false, Initial;
      surface := dom;
      listener := Listener(false, 0);
      new;
      Render();
    }

    /** The render after an event. */
    method Render()
      requires Valid()
      modifies this`index, this`filterKey, this`searchRef, this`syncedSearch, this`listener
      ensures Valid() && Rendered()
      ensures Now() == RenderStep(svc, old(Now()))
    {
      ghost var w0 := Now();
      RunMemo();
      SyncRef();
      RunListenerEffect();
      assert Local() == EffectStep(RefStep(MemoStep(svc, w0)), w0.store.panel.isVisible);
    }

    /** The filter memo. */
    method RunMemo()
      modifies this`index, this`filterKey
      ensures Local() == MemoStep(svc, old(Now()))
    {
      var key := KeyOf(store.State(), searchText);
      if filterKey != Some(key) {
        filterKey := Some(key);
        if store.isVisible || store.symbol != "" {
          index := FocusAfterFilter(Items(), store.defaultIndex);
        }
      }
    }

    /** The effect `searchTextRef.current = searchText`. */
    method SyncRef()
      modifies this`searchRef, this`syncedSearch
      ensures Local() == RefStep(old(Local()))
    {
      if searchText != syncedSearch {
        searchRef := searchText;
        syncedSearch := searchText;
      }
    }

    /** The text-area listener effect, re-run when `ctx.isVisible` changes;
        the cleanup of a run on a shown panel schedules the search reset. */
    method RunListenerEffect()
      modifies this`listener
      ensures Local() == EffectStep(old(Local()), store.isVisible)
    {
      if listener.shown != store.isVisible {
        listener := Listener(store.isVisible, if listener.shown then listener.searchResets + 1 else listener.searchResets);
      }
    }

    /** A timer of the listener effect's cleanup fires: `setSearchText('')`. */
    method FireSearchReset()
      modifies this`searchText, this`listener
      ensures Now() == FireSearchResetStep(old(Now()))
    {
      if listener.searchResets > 0 {
        searchText := "";
        listener := listener.(searchResets := listener.searchResets - 1);
      }
    }

    /** `clearSearchText(includeSymbol)`. */
    method ClearSearchText(includeSymbol: bool, snap: Snapshot)
      requires snap.dom.Valid()
      modifies this`searchRef, this`surface, this`searchText
      ensures Local() == ClearStep(old(Local()), includeSymbol, snap)
    {
      ghost var out := ClearSearch(includeSymbol, snap.dom, searchRef);
      var dom := snap.dom;
      var ref := searchRef;
      if dom.caret > 0 && IsTrigger(dom.text[dom.caret - 1]) && ref == "" {
        ref := [dom.text[dom.caret - 1]];
      }
      assert ref == out.searchRef;
      var pattern := if includeSymbol then ref else StripTrigger(ref);
      var newSurface := surface;
      var newText := searchText;
      if pattern != "" {
        var before := dom.text[..dom.caret];
        if IsSuffix(pattern, before) {
          var start := dom.caret - |pattern|;
          newSurface := Surface(dom.text[..start] + dom.text[dom.caret..], start);
        }
        newText := "";
      }
      ghost var v := Local();
      assert newSurface == if out.rewritten.Some? then out.rewritten.value else v.surface;
      assert newText == if out.resetsSearch then "" else v.searchText;
      assert ClearStep(v, includeSymbol, snap) == v.(searchRef := ref, surface := newSurface, searchText := newText);
      searchRef, surface, searchText := ref, newSurface, newText;
      assert Local() == v.(searchRef := ref, surface := newSurface, searchText := newText);
    }

    /** `handleClose(action)`. */
    method HandleClose(action: CloseAction, snap: Snapshot)
      requires Valid() && snap.dom.Valid()
      modifies this, store
      ensures Valid()
      ensures Now() == CloseViewStep(old(Now()), action, snap)
    {
      store.CloseBound(snap.panel, action, None);
      history := [];
      scroll := Initial;
      if action == Some(DeleteSymbolAction) {
        surface := snap.dom;
      } else if ErasesInput(action) {
        ClearSearchText(true, snap);
      }
    }

    /** `handleItemAction(item, action, event)`. */
    method HandleItemAction(item: ListItem, action: CloseAction, shift: bool, snap: Snapshot)
      requires Valid() && snap.dom.Valid()
      modifies this, store
      ensures Valid()
      ensures Now() == ItemActionStep(old(Now()), item, action, shift, snap)
    {
      if item.disabled {
        return;
      }
      var opts := ItemOptions(snap, item, action, shift);
      store.Invoke(snap.panel.beforeAction, opts);
      store.Invoke(item.action, opts);
      store.Invoke(snap.panel.afterAction, opts);
      Settle(item, action, shift, snap);
    }

    /** The end of `handleItemAction`, after the callbacks. */
    method Settle(item: ListItem, action: CloseAction, shift: bool, snap: Snapshot)
      requires Valid() && snap.dom.Valid()
      modifies this, store
      ensures Valid()
      ensures Now() == SettleStep(old(Now()), item, action, shift, snap)
    {
      if item.isMenu {
        history := history + [HistoryEntry(snap.panel, snap.index)];
        ClearSearchText(false, snap);
        return;
      }
      if snap.panel.multiple && (snap.assist || shift) {
        return;
      }
      HandleClose(action, snap);
    }

    /** The key-down listener. */
    method KeyDown(ev: KeyEvent)
      requires Valid()
      modifies this, store
      ensures Valid()
      ensures Now() == KeyDownStep(svc, old(Now()), ev)
    {
      if !store.isVisible {
        return;
      }
      var snap := Snap();
      if ev.primary {
        assist := true;
      }
      if ReleasesMouse(ev.key, snap.assist) {
        mouseOver := false;
      }
      HandleKey(ev.key, ev.shift, snap);
    }

    /** The `switch` on the key. */
    method HandleKey(key: Key, shift: bool, snap: Snapshot)
      requires Valid() && snap.dom.Valid()
      modifies this, store
      ensures Valid()
      ensures Now() == KeyActionStep(old(Now()), key, shift, snap)
    {
      if IsNavigationKey(key) {
        scroll := Keyboard;
        index := IndexAfterKey(key, snap.assist, index, snap.panel.pageSize, |snap.list|);
      } else if key.ArrowLeft? {
        GoBack(snap);
      } else if key.ArrowRight? {
        GoForward(snap);
      } else if key.Enter? || key.NumpadEnter? {
        Confirm(snap, shift);
      } else if key.Escape? {
        HandleClose(Some(EscAction), snap);
      }
    }

    /** Modifier + Arrow Left. */
    method GoBack(snap: Snapshot)
      requires Valid() && snap.dom.Valid()
      modifies this, store
      ensures Valid()
      ensures Now() == BackStep(old(Now()), snap)
    {
      if !snap.assist || history == [] {
        return;
      }
      scroll := Initial;
      ClearSearchText(false, snap);
      var last := history[|history| - 1];
      history := history[..|history| - 1];
      store.Open(last);
    }

    /** Modifier + Arrow Right. */
    method GoForward(snap: Snapshot)
      requires Valid() && snap.dom.Valid()
      modifies this, store
      ensures Valid()
      ensures Now() == ForwardStep(old(Now()), snap)
    {
      if !snap.assist || !InRange(snap.index, |snap.list|) || !snap.list[snap.index].isMenu {
        return;
      }
      scroll := Initial;
      ClearSearchText(false, snap);
      HandleItemAction(snap.list[snap.index], Some(EnterAction), false, snap);
    }

    /** Enter or numeric-pad Enter. */
    method Confirm(snap: Snapshot, shift: bool)
      requires Valid() && snap.dom.Valid()
      modifies this, store
      ensures Valid()
      ensures Now() == EnterStep(old(Now()), snap, shift)
    {
      if composing {
        return;
      }
      if InRange(snap.index, |snap.list|) {
        mouseOver := false;
        HandleItemAction(snap.list[snap.index], Some(EnterAction), shift, snap);
      } else {
        HandleClose(Some(EnterEmptyAction), snap);
      }
    }

    /** The key-up listener. */
    method KeyUp(primary: bool)
      modifies this`assist
      ensures Now() == KeyUpStep(old(Now()), primary)
    {
      if store.isVisible && !primary {
        assist := false;
      }
    }

    /** The text area's input listener, after the host stored the new value. */
    method Input(dom: Surface)
      requires Valid() && dom.Valid()
      modifies this, store
      ensures Valid()
      ensures Now() == InputStep(svc, old(Now()), dom)
    {
      var listening := store.isVisible && !composing;
      surface := dom;
      if !listening {
        return;
      }
      var s := SearchTextAt(dom);
      if s.Some? {
        searchText := s.value;
      } else {
        HandleClose(Some(DeleteSymbolAction), Snap());
      }
    }

    method CompositionUpdate()
      modifies this`composing
      ensures Now() == CompositionUpdateStep(old(Now()))
    {
      if store.isVisible {
        composing := true;
      }
    }

    method CompositionEnd(dom: Surface)
      requires Valid() && dom.Valid()
      modifies this, store
      ensures Valid()
      ensures Now() == CompositionEndStep(svc, old(Now()), dom)
    {
      if store.isVisible {
        composing := false;
        Input(dom);
      } else {
        surface := dom;
      }
    }

    /** The window's click listener. */
    method ClickOutside(inInputBar: bool, inPanel: bool)
      requires Valid()
      modifies this, store
      ensures Valid()
      ensures Now() == ClickOutsideStep(svc, old(Now()), inInputBar, inPanel)
    {
      if store.isVisible && !inInputBar && !inPanel {
        HandleClose(Some(OutsideClickAction), Snap());
      }
    }

    /** A click on row `row`. */
    method RowClick(row: int, shift: bool)
      requires Valid()
      modifies this, store
      ensures Valid()
      ensures Now() == RowClickStep(svc, old(Now()), row, shift)
    {
      var snap := Snap();
      if store.isVisible && mouseOver && InRange(row, |snap.list|) {
        HandleItemAction(snap.list[row], Some(ClickAction), shift, snap);
      }
    }

    /** The pointer enters row `row`. */
    method MouseEnter(row: int)
      modifies this`index
      ensures Now() == MouseEnterStep(svc, old(Now()), row)
    {
      if store.isVisible && mouseOver && InRange(row, |Items()|) {
        index := row;
      }
    }

    /** The pointer moves inside the panel. */
    method MouseMove()
      modifies this`mouseOver, this`scroll
      ensures Now() == MouseMoveStep(old(Now()))
    {
      if store.isVisible {
        mouseOver := true;
        scroll := Initial;
      }
    }
  }
}
