/** The panel state store: one active configuration, its visibility, the
    deferred clear that runs 200 ms after `close`, and identity-keyed item
    updates. */
module QuickPanelProvider {
  import opened QuickPanelTypes
  import opened ItemLists
  import opened CallbackEffects

  // ---------------------------------------------------------------------
  // The deferred-clear timers.
  // `close` schedules a timer and keeps its handle in `clearTimer.current`;
  // `open` cancels the timer that handle names. Timers are numbered in the
  // order they are scheduled.

  datatype ClearTimers = ClearTimers(pending: set<nat>, current: Option<nat>, next: nat)

  const NoTimers: ClearTimers := ClearTimers({}, None, 0)

  function Handle(t: ClearTimers): set<nat>
  {
    if t.current.Some? then {t.current.value} else {}
  }

  /** Every timer pending or named by the handle was scheduled already. */
  predicate Numbered(t: ClearTimers)
  {
    (forall id :: id in t.pending ==> id < t.next) && (t.current.Some? ==> t.current.value < t.next)
  }

  /** No timer is pending except the one the handle names. */
  predicate Tracked(t: ClearTimers)
  {
    t.pending <= Handle(t) && (t.current.Some? ==> t.current.value < t.next)
  }

  /** What `open` does to the timers: cancel the one the handle names. */
  function CancelCurrent(t: ClearTimers): (r: ClearTimers)
    ensures r.current.None? && r.next == t.next
    ensures r.pending == t.pending - Handle(t)
    ensures Numbered(t) ==> Numbered(r)
    ensures Tracked(t) ==> r.pending == {}
  {
    ClearTimers(t.pending - Handle(t), None, t.next)
  }

  /** What `close` does to the timers as written: schedule a new timer and
      overwrite the handle, without cancelling the timer it named. */
  function ScheduleAsWritten(t: ClearTimers): (r: ClearTimers)
    ensures r.pending == t.pending + {t.next} && r.current == Some(t.next) && r.next == t.next + 1
    ensures Numbered(t) ==> Numbered(r) && t.next !in t.pending
  {
    ClearTimers(t.pending + {t.next}, Some(t.next), t.next + 1)
  }

  /** Two closes and an open, as written: the first close's timer is still
      pending after the open, and it will clear the newly opened panel. */
  lemma StaleTimerSurvivesOpen(t: ClearTimers)
    requires Numbered(t)
    ensures t.next in CancelCurrent(ScheduleAsWritten(ScheduleAsWritten(t))).pending
  {
  }

  /** The corrected `close`: cancel the timer the handle names, then schedule. */
  function Schedule(t: ClearTimers): (r: ClearTimers)
    requires Tracked(t)
    ensures Tracked(r)
    ensures r.pending == {t.next} && r.current == Some(t.next) && r.next == t.next + 1
  {
    ScheduleAsWritten(CancelCurrent(t))
  }

  /** A timer fires: it is no longer pending. The handle is left as it was,
      as in the source. */
  function Fire(t: ClearTimers, id: nat): (r: ClearTimers)
    requires Numbered(t)
    ensures Numbered(r)
    ensures Tracked(t) ==> Tracked(r)
    ensures r.pending == t.pending - {id} && r.current == t.current && r.next == t.next
  {
    ClearTimers(t.pending - {id}, t.current, t.next)
  }

  /** The timers after `closes` corrected closes in a row. */
  function ScheduleTimes(t: ClearTimers, closes: nat): (r: ClearTimers)
    requires Tracked(t)
    ensures Tracked(r)
    ensures closes > 0 ==> r.current == Some(r.next - 1)
    decreases closes
  {
    if closes == 0 then t else Schedule(ScheduleTimes(t, closes - 1))
  }

  /** With the corrected `close`, however many closes precede an `open`, no
      timer is left pending after it. */
  lemma OpenCancelsEveryClear(t: ClearTimers, closes: nat)
    requires Tracked(t)
    ensures CancelCurrent(ScheduleTimes(t, closes)).pending == {}
  {
  }

  // ---------------------------------------------------------------------
  // The configuration.

  /** Every field of the store that a consumer can read. */
  datatype Panel = Panel(
    isVisible: bool,
    symbol: string,
    list: seq<ListItem>,
    title: Option<string>,
    defaultIndex: int,
    pageSize: int,
    multiple: bool,
    multipleRepeat: bool,
    triggerInfo: Option<TriggerInfo>,
    onClose: Option<Callback>,
    beforeAction: Option<Callback>,
    afterAction: Option<Callback>)

  /** The initial values of the store's state hooks. */
  const InitialPanel: Panel :=
    Panel(false, "", [], None, DefaultIndex, DefaultPageSize, DefaultMultiple, DefaultMultipleRepeat,
          None, None, None, None)

  /** The configuration `open` installs: every field comes from the options,
      unset optional ones take their documented defaults, nothing is kept
      from the previous configuration, and the panel becomes visible. */
  function Installed(o: OpenOptions): (p: Panel)
    ensures p.isVisible
    ensures p.title == o.title && p.list == o.list && p.symbol == o.symbol && p.triggerInfo == o.triggerInfo
    ensures p.onClose == o.onClose && p.beforeAction == o.beforeAction && p.afterAction == o.afterAction
    ensures o.defaultIndex.None? ==> p.defaultIndex == 0
    ensures o.pageSize.None? ==> p.pageSize == 7
    ensures o.multiple.None? ==> !p.multiple
    ensures o.multipleRepeat.None? ==> !p.multipleRepeat
    ensures o.defaultIndex.Some? ==> p.defaultIndex == o.defaultIndex.value
    ensures o.pageSize.Some? ==> p.pageSize == o.pageSize.value
    ensures o.multiple.Some? ==> p.multiple == o.multiple.value
    ensures o.multipleRepeat.Some? ==> p.multipleRepeat == o.multipleRepeat.value
  {
    Panel(true, o.symbol, o.list, o.title,
          o.defaultIndex.GetOr(DefaultIndex), o.pageSize.GetOr(DefaultPageSize),
          o.multiple.GetOr(DefaultMultiple), o.multipleRepeat.GetOr(DefaultMultipleRepeat),
          o.triggerInfo, o.onClose, o.beforeAction, o.afterAction)
  }

  /** What the deferred clear does: it empties the list, the callbacks, the
      title and the trigger information and resets the symbol, and keeps the
      visibility, the default index, the page size and both selection modes. */
  function Cleared(p: Panel): (r: Panel)
    ensures r.list == [] && r.symbol == "" && r.title.None? && r.triggerInfo.None?
    ensures r.onClose.None? && r.beforeAction.None? && r.afterAction.None?
    ensures r.isVisible == p.isVisible && r.defaultIndex == p.defaultIndex && r.pageSize == p.pageSize
    ensures r.multiple == p.multiple && r.multipleRepeat == p.multipleRepeat
  {
    p.(list := [], onClose := None, beforeAction := None, afterAction := None,
       title := None, symbol := "", triggerInfo := None)
  }

  /** The options `close` passes to `onClose`: the current symbol and trigger
      information, the given action and search text, an empty placeholder
      item and `multiple: false`. */
  function CloseOptions(p: Panel, action: CloseAction, searchText: Option<string>): (o: CallbackOptions)
    ensures o.symbol == p.symbol && o.triggerInfo == p.triggerInfo
    ensures o.action == action && o.searchText == searchText
    ensures o.item.None? && o.multiple == Some(false) && o.mode.None?
  {
    CallbackOptions(p.symbol, action, None, searchText, Some(false), None, p.triggerInfo)
  }

  /** The store's whole state: the configuration, the list's version (a new
      array was installed), the timers and the log of host callbacks invoked. */
  datatype StoreState = StoreState(panel: Panel, version: nat, timers: ClearTimers, calls: seq<Invocation>)

  ghost predicate WellFormed(s: StoreState)
  {
    Numbered(s.timers)
  }

  /** `open`: install the configuration and cancel the timer the handle
      names; any older clear stays pending. */
  function OpenStep(s: StoreState, o: OpenOptions): (r: StoreState)
    requires WellFormed(s)
    ensures WellFormed(r) && r.panel == Installed(o) && r.calls == s.calls
    ensures r.timers.pending == s.timers.pending - Handle(s.timers) && r.timers.current.None?
    ensures Tracked(s.timers) ==> r.timers.pending == {}
  {
    StoreState(Installed(o), s.version + 1, CancelCurrent(s.timers), s.calls)
  }

  /** `close` as a render bound it: `bound` is the configuration of that
      render, whose `onClose`, symbol and trigger information the callback
      closed over. The visibility is hidden on the live state, the bound
      `onClose` is called, and a new clear is scheduled whose handle
      replaces the old one, which is not cancelled. */
  function CloseWith(s: StoreState, bound: Panel, action: CloseAction, searchText: Option<string>): (r: StoreState)
    requires WellFormed(s)
    ensures WellFormed(r)
    ensures r.panel == s.panel.(isVisible := false) && r.version == s.version
    ensures r.calls == s.calls + CallsOf(bound.onClose, CloseOptions(bound, action, searchText))
    ensures r.timers.pending == s.timers.pending + {s.timers.next} && r.timers.current == Some(s.timers.next)
  {
    StoreState(s.panel.(isVisible := false), s.version, ScheduleAsWritten(s.timers),
               s.calls + CallsOf(bound.onClose, CloseOptions(bound, action, searchText)))
  }

  /** `close`, as written, called by a host that has seen the current
      configuration rendered. */
  function CloseStep(s: StoreState, action: CloseAction, searchText: Option<string>): (r: StoreState)
    requires WellFormed(s)
    ensures WellFormed(r)
    ensures r.panel == s.panel.(isVisible := false)
    ensures r.calls == s.calls + CallsOf(s.panel.onClose, CloseOptions(s.panel, action, searchText))
    ensures r.timers.pending == s.timers.pending + {s.timers.next} && r.timers.current == Some(s.timers.next)
  {
    CloseWith(s, s.panel, action, searchText)
  }

  /** The corrected `close`: the same, but the clear it replaces is cancelled. */
  function CorrectedCloseStep(s: StoreState, action: CloseAction, searchText: Option<string>): (r: StoreState)
    requires WellFormed(s) && Tracked(s.timers)
    ensures WellFormed(r) && Tracked(r.timers)
    ensures r.panel == s.panel.(isVisible := false)
    ensures r.calls == s.calls + CallsOf(s.panel.onClose, CloseOptions(s.panel, action, searchText))
    ensures r.timers.pending == {s.timers.next} && r.timers.current == Some(s.timers.next)
  {
    StoreState(s.panel.(isVisible := false), s.version, Schedule(s.timers),
               s.calls + CallsOf(s.panel.onClose, CloseOptions(s.panel, action, searchText)))
  }

  function FireStep(s: StoreState, id: nat): (r: StoreState)
    requires WellFormed(s)
    ensures WellFormed(r)
    ensures id in s.timers.pending ==>
      r.panel == Cleared(s.panel) && r.version == s.version + 1 && r.calls == s.calls &&
      r.timers.pending == s.timers.pending - {id} && r.timers.current == s.timers.current
    ensures id !in s.timers.pending ==> r == s
  {
    if id in s.timers.pending then
      StoreState(Cleared(s.panel), s.version + 1, Fire(s.timers, id), s.calls)
    else s
  }

  function UpdateStep(s: StoreState, target: ItemId, f: ListItem -> ListItem): StoreState
  {
    s.(panel := s.panel.(list := ReplaceIdentical(s.panel.list, target, f)), version := s.version + 1)
  }

  /** Invoking a callback records the invocation, then applies its effect:
      `CountSelection` updates the items in place, `OpenPanel` opens. */
  function InvokeStep(s: StoreState, cb: Option<Callback>, opts: CallbackOptions): (r: StoreState)
    requires WellFormed(s)
    ensures WellFormed(r)
    ensures r.calls == s.calls + CallsOf(cb, opts)
    ensures cb.Some? && cb.value.OpenPanel? ==> r.panel == Installed(cb.value.options)
    ensures !(cb.Some? && cb.value.OpenPanel?) ==>
      r.panel == s.panel.(list := InvokeEffect(s.panel.list, cb, opts)) && r.timers == s.timers && r.version == s.version
  {
    var logged := s.(calls := s.calls + CallsOf(cb, opts));
    if cb.Some? && cb.value.OpenPanel? then OpenStep(logged, cb.value.options)
    else logged.(panel := s.panel.(list := InvokeEffect(s.panel.list, cb, opts)))
  }

  /** After an `open`, a timer that fires leaves the state as it is exactly
      when it is not a clear left pending from before the open other than
      the one the handle named; such a stale clear empties the opened panel.
      When at most the handle's clear was pending, no timer changes it. */
  lemma ClearNeverOverwritesOpen(s: StoreState, o: OpenOptions, id: nat)
    requires WellFormed(s)
    ensures var stale := id in s.timers.pending && id !in Handle(s.timers);
      (FireStep(OpenStep(s, o), id) == OpenStep(s, o) <==> !stale) &&
      (stale ==> FireStep(OpenStep(s, o), id).panel == Cleared(Installed(o)))
    ensures Tracked(s.timers) ==> FireStep(OpenStep(s, o), id) == OpenStep(s, o)
  {
  }

  /** Close, then open within the grace window, then a timer fires: the
      clear this close scheduled never takes effect, so the new configuration
      stands unless the timer is a clear still pending from an earlier close,
      which empties it; the panel stays visible either way. */
  lemma ReopenWithinGraceWindow(s: StoreState, action: CloseAction, o: OpenOptions, id: nat)
    requires WellFormed(s)
    ensures var r := FireStep(OpenStep(CloseStep(s, action, None), o), id);
      r.panel.isVisible &&
      (id !in s.timers.pending ==> r.panel == Installed(o)) &&
      (id in s.timers.pending ==> r.panel == Cleared(Installed(o)))
  {
    var c := CloseStep(s, action, None);
    assert OpenStep(c, o).timers.pending == s.timers.pending;
  }

  /** The discrepancy on the whole store: close, close, then open within the
      grace window, and the first close's clear empties the opened panel. */
  lemma DoubleCloseClearsReopenedPanel(s: StoreState, a1: CloseAction, a2: CloseAction, o: OpenOptions)
    requires WellFormed(s)
    ensures var r := FireStep(OpenStep(CloseStep(CloseStep(s, a1, None), a2, None), o), s.timers.next);
      r.panel == Cleared(Installed(o)) && r.panel.isVisible
  {
    var c2 := CloseStep(CloseStep(s, a1, None), a2, None);
    assert s.timers.next in OpenStep(c2, o).timers.pending;
  }

  /** With the corrected `close`, a reopen within the grace window always
      stands, whichever timer fires, and the timers stay tracked. */
  lemma CorrectedReopenStands(s: StoreState, action: CloseAction, o: OpenOptions, id: nat)
    requires WellFormed(s) && Tracked(s.timers)
    ensures var r := FireStep(OpenStep(CorrectedCloseStep(s, action, None), o), id);
      r == OpenStep(CorrectedCloseStep(s, action, None), o) && r.panel == Installed(o) && Tracked(r.timers)
  {
  }

  /** After a close, the scheduled clear empties the configuration and the
      panel stays hidden. */
  lemma CloseThenClear(s: StoreState, action: CloseAction)
    requires WellFormed(s)
    ensures var c := CloseStep(s, action, None);
      c.timers.current.Some? && c.timers.current.value in c.timers.pending &&
      FireStep(c, c.timers.current.value).panel == Cleared(s.panel.(isVisible := false)) &&
      !FireStep(c, c.timers.current.value).panel.isVisible
  {
  }

  class PanelStore {
    var isVisible: bool
    var symbol: string
    var list: seq<ListItem>
    var title: Option<string>
    var defaultIndex: int
    var pageSize: int
    var multiple: bool
    var multipleRepeat: bool
    var triggerInfo: Option<TriggerInfo>
    var onClose: Option<Callback>
    var beforeAction: Option<Callback>
    var afterAction: Option<Callback>
    /** Counts the arrays installed by `setList`: the view re-filters when it changes. */
    var listVersion: nat
    var timers: ClearTimers
    /** The host callbacks invoked so far, in order. */
    var calls: seq<Invocation>

    function Config(): Panel
      reads this
    {
      Panel(isVisible, symbol, list, title, defaultIndex, pageSize, multiple, multipleRepeat,
            triggerInfo, onClose, beforeAction, afterAction)
    }

    function State(): StoreState
      reads this
    {
      StoreState(Config(), listVersion, timers, calls)
    }

    ghost predicate Valid()
      reads this
    {
      WellFormed(State())
    }

    constructor ()
      ensures Valid()
      ensures State() == StoreState(InitialPanel, 0, NoTimers, [])
    {
      isVisible, symbol, list, title := false, "", [], None;
      defaultIndex, pageSize := DefaultIndex, DefaultPageSize;
      multiple, multipleRepeat := DefaultMultiple, DefaultMultipleRepeat;
      triggerInfo, onClose, beforeAction, afterAction := None, None, None, None;
      listVersion, timers, calls := 0, NoTimers, [];
    }

    method SetConfig(p: Panel)
      modifies this`isVisible, this`symbol, this`list, this`title, this`defaultIndex, this`pageSize,
               this`multiple, this`multipleRepeat, this`triggerInfo, this`onClose, this`beforeAction,
               this`afterAction
      ensures Config() == p
    {
      isVisible, symbol, list, title := p.isVisible, p.symbol, p.list, p.title;
      defaultIndex, pageSize := p.defaultIndex, p.pageSize;
      multiple, multipleRepeat := p.multiple, p.multipleRepeat;
      triggerInfo, onClose, beforeAction, afterAction := p.triggerInfo, p.onClose, p.beforeAction, p.afterAction;
    }

    /** `open`: cancel the pending clear, install the configuration, show the panel. */
    method Open(o: OpenOptions)
      requires Valid()
      modifies this
      ensures Valid()
      ensures State() == OpenStep(old(State()), o)
    {
      timers := CancelCurrent(timers);
      SetConfig(Installed(o));
      listVersion := listVersion + 1;
    }

    /** `close` from the current configuration's render. */
    method Close(action: CloseAction, searchText: Option<string>)
      requires Valid()
      modifies this
      ensures Valid()
      ensures State() == CloseStep(old(State()), action, searchText)
    {
      CloseBound(Config(), action, searchText);
    }

    /** The `close` a render of `bound` handed out: hide the panel, call the
        bound `onClose` when there is one, schedule the clear over the handle
        without cancelling the one it held. */
    method CloseBound(bound: Panel, action: CloseAction, searchText: Option<string>)
      requires Valid()
      modifies this
      ensures Valid()
      ensures State() == CloseWith(old(State()), bound, action, searchText)
    {
      isVisible := false;
      calls := calls + CallsOf(bound.onClose, CloseOptions(bound, action, searchText));
      timers := ScheduleAsWritten(timers);
    }

    /** The timer `id` fires; a cancelled or already fired timer does nothing. */
    method FireClearTimer(id: nat)
      requires Valid()
      modifies this
      ensures Valid()
      ensures State() == FireStep(old(State()), id)
    {
      if id in timers.pending {
        SetConfig(Cleared(Config()));
        listVersion := listVersion + 1;
        timers := Fire(timers, id);
      }
    }

    /** `updateItemSelection`: set `isSelected` on the items identical to the target. */
    method UpdateItemSelection(target: ListItem, selected: bool)
      requires Valid()
      modifies this`list, this`listVersion
      ensures Valid()
      ensures State() == UpdateStep(old(State()), target.id, Selecting(selected))
    {
      list := ReplaceIdentical(list, target.id, Selecting(selected));
      listVersion := listVersion + 1;
    }

    /** `updateItem`: replace the items identical to the target by `updater` of them. */
    method UpdateItem(target: ListItem, updater: ListItem -> ListItem)
      requires Valid()
      modifies this`list, this`listVersion
      ensures Valid()
      ensures State() == UpdateStep(old(State()), target.id, updater)
    {
      list := ReplaceIdentical(list, target.id, updater);
      listVersion := listVersion + 1;
    }

    /** A caller invokes the optional callback `cb` held by the store. */
    method Invoke(cb: Option<Callback>, opts: CallbackOptions)
      requires Valid()
      modifies this
      ensures Valid()
      ensures State() == InvokeStep(old(State()), cb, opts)
    {
      calls := calls + CallsOf(cb, opts);
      if cb.Some? && cb.value.OpenPanel? {
        Open(cb.value.options);
      } else {
        list := InvokeEffect(list, cb, opts);
      }
    }
  }
}
