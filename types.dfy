/** The value types the quick panel passes around: list items, open options,
    callback options and close actions, with their documented defaults. */
module QuickPanelTypes {

  datatype Option<+T> = None | Some(value: T) {
    /** The `??` operator: the value when present, the default otherwise. */
    function GetOr(default: T): T {
      match this
      case Some(v) => v
      case None => default
    }
  }

  /** What a label, description, icon or suffix holds: plain text, or a
      rendered element whose contents the panel never looks into. */
  datatype Content = Text(text: string) | Element

  /** JavaScript truthiness of an optional piece of content: absent content
      and the empty string are falsy, every element is truthy. */
  predicate Truthy(c: Option<Content>)
  {
    c.Some? && (c.value.Element? || c.value.text != "")
  }

  /** A host function held by the panel. `HostFn` is opaque: the panel only
      records that it was invoked. Two have a modelled effect:
      `CountSelection`, the `afterAction` that the mention-models button
      installs (module CallbackEffects), and `OpenPanel`, the action of a
      sub-menu item, which calls `open` with the nested configuration. */
  datatype Callback = HostFn(name: string, arg: string) | CountSelection | OpenPanel(options: OpenOptions)

  /** Item identity: JavaScript compares items by reference, the model by an
      explicit identifier. */
  type ItemId = nat

  /** A list item. Optional booleans are `false` when absent and an absent
      `selectionCount` is 0: every use in the source treats `undefined` and
      those values alike. */
  datatype ListItem = ListItem(
    id: ItemId,
    caption: Content,    // the `label` field (`label` is a Dafny keyword)
    description: Option<Content>,
    filterText: Option<string>,
    icon: Content,
    suffix: Option<Content>,
    isSelected: bool,
    selectionCount: int,
    isMenu: bool,
    disabled: bool,
    alwaysVisible: bool,
    action: Option<Callback>)

  datatype TriggerSource = FromInput | FromButton
  datatype TriggerInfo = TriggerInfo(source: TriggerSource, position: Option<int>, originalText: Option<string>)

  /** Repeat-selection mode: toggle a selection or add one more. */
  datatype Mode = Toggle | Add

  /** A close action is any string or `undefined` (None). */
  type CloseAction = Option<string>

  const EnterAction: string := "enter"
  const ClickAction: string := "click"
  const EscAction: string := "esc"
  const OutsideClickAction: string := "outsideclick"
  const EnterEmptyAction: string := "enter_empty"
  const DeleteSymbolAction: string := "delete-symbol"

  /** The record every host callback receives. `item` None is the empty
      placeholder object that `close` passes. */
  datatype CallbackOptions = CallbackOptions(
    symbol: string,
    action: CloseAction,
    item: Option<ListItem>,
    searchText: Option<string>,
    multiple: Option<bool>,
    mode: Option<Mode>,
    triggerInfo: Option<TriggerInfo>)

  /** The argument of `open`; unset optional fields take the defaults below. */
  datatype OpenOptions = OpenOptions(
    title: Option<string>,
    list: seq<ListItem>,
    defaultIndex: Option<int>,
    pageSize: Option<int>,
    multiple: Option<bool>,
    multipleRepeat: Option<bool>,
    symbol: string,
    triggerInfo: Option<TriggerInfo>,
    beforeAction: Option<Callback>,
    afterAction: Option<Callback>,
    onClose: Option<Callback>)

  const DefaultIndex: int := 0
  const DefaultPageSize: int := 7
  const DefaultMultiple: bool := false
  const DefaultMultipleRepeat: bool := false

  /** One recorded invocation of a host callback. */
  datatype Invocation = Invocation(callback: Callback, options: CallbackOptions)

  /** The invocation of an optional callback: nothing when it is absent
      (the `?.()` operator). */
  function CallsOf(cb: Option<Callback>, opts: CallbackOptions): (r: seq<Invocation>)
    ensures |r| <= 1
    ensures r != [] <==> cb.Some?
    ensures r != [] ==> r[0] == Invocation(cb.value, opts)
  {
    if cb.Some? then [Invocation(cb.value, opts)] else []
  }
}
