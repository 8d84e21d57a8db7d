# Quick panel and model mentions, in Dafny

This project models the quick panel of the Cherry Studio chat input bar and
the two components that use it to mention models.

- **The panel store** holds one configuration at a time: the list, title,
  symbol, page size, selection modes, trigger information and the three host
  callbacks. It also holds visibility and the 200 ms deferred clear that
  follows `close`. The store is the class `QuickPanelProvider.PanelStore`;
  each of its methods is proved equal to a pure step on a snapshot of its
  fields.
- **The panel view** keeps the search text, the focused row, the history of
  parent panels and the modifier, mouse and composition flags, next to the
  host's text area. It is the class `QuickPanelView.PanelView`; each event
  handler is proved equal to a pure step on the whole `World` (view state
  plus store state). Handlers read the values of the last render (a
  `Snapshot`). `Render` re-runs the filter memo when one of its inputs
  changed, syncs the search-text ref and re-runs the text-area listener
  effect when the panel shows or hides. Hiding schedules the effect's
  200 ms reset of the search text, which `FireSearchReset` runs.
- **The filter** (`QuickPanelSearch`) keeps an item when, after the leading
  trigger is removed, the query is empty, is a substring of the item's text,
  or matches it as the `.*`-joined pattern. For a text with CJK characters
  the pattern is matched against its pinyin instead. The model proves that
  the pattern match is exactly "is a subsequence within one line".
- **The mention button** (`MentionModelsButton`) counts the models already
  mentioned and builds the list: pinned models first, then each provider's
  other models sorted by group and name, then "add model". Its toggle opens
  a multi-select panel whose `afterAction` counts selections.
- **The mention tags** (`MentionModelsInput`) group the selected models by
  unique id in first-selection order. Each tag shows the model's name, its
  provider's display name and an `x<count>` suffix for repeats.

Host functions are opaque values (`Callback`). Invoking one appends an
`Invocation` to the store's log. Only two have a modelled effect:

- the mention button's selection counter, which updates the item in place;
- a sub-menu's opening of a nested panel.

Identity comparison of items (`item === target`) is modelled by an explicit
item id. Lower-casing, pinyin conversion, `getModelUniqId`,
`isEmbeddingModel`, `isRerankModel` and the translation function are
parameters (`TextServices`, `Catalog`).

## Model

| member | source | states |
|---|---|---|
| QuickPanelTypes.CallsOf | src/renderer/src/components/QuickPanel/provider.tsx:69 | an optional callback (`?.()`) is invoked exactly once when present and not at all when absent |
| ItemLists.ReplaceIdentical | src/renderer/src/components/QuickPanel/provider.tsx:37-42 | the map keeps length and order; an item identical to the target becomes `updater(item)` and every other item is kept |
| ItemLists.Selecting | src/renderer/src/components/QuickPanel/provider.tsx:33 | the updater `updateItemSelection` maps over the list: `{...item, isSelected}`, the same item with only `isSelected` set; `SelectionChangesOnlyIsSelected` states its effect on the list |
| ItemLists.ReplaceAbsent | src/renderer/src/components/QuickPanel/provider.tsx:37-42 | updating a target that is not in the list leaves the list unchanged |
| ItemLists.SelectionChangesOnlyIsSelected | src/renderer/src/components/QuickPanel/provider.tsx:32-34 | `updateItemSelection` changes only `isSelected`, and only on the items identical to the target |
| ItemLists.SelectionIdempotent | src/renderer/src/components/QuickPanel/provider.tsx:32-34 | setting the same selection twice is the same as setting it once |
| CallbackEffects.CountSelectionUpdate | src/renderer/src/pages/home/Inputbar/MentionModelsButton.tsx:142-149 | mode `add` adds one to the count; any other mode toggles the count between 0 and 1; the item is selected exactly when its count is non-zero; no other field changes |
| CallbackEffects.CountingSelection | src/renderer/src/pages/home/Inputbar/MentionModelsButton.tsx:142-149 | the mention panel's `afterAction` for one mode, as an item updater that applies `CountSelectionUpdate`; `InvokeEffect` applies it to the item identical to the chosen one |
| CallbackEffects.ToggleTwiceRestores | src/renderer/src/pages/home/Inputbar/MentionModelsButton.tsx:145-148 | toggling twice restores an item whose count is 0 or 1 and agrees with its selected flag |
| CallbackEffects.AddSelects | src/renderer/src/pages/home/Inputbar/MentionModelsButton.tsx:143-148 | mode `add` on a non-negative count always leaves the item selected with a count of at least 1 |
| CallbackEffects.InvokeEffect | src/renderer/src/pages/home/Inputbar/MentionModelsButton.tsx:142-149 | only the selection counter changes the items, and it keeps the list's length |
| QuickPanelProvider.CancelCurrent | src/renderer/src/components/QuickPanel/provider.tsx:45-48 | `open` cancels the timer the handle names and clears the handle; every other pending timer stays pending, and every timer stays numbered below the next one |
| QuickPanelProvider.Handle | src/renderer/src/components/QuickPanel/provider.tsx:45-48 | the timer `clearTimer.current` names: none when the ref is `null`, otherwise that one timer |
| QuickPanelProvider.ScheduleAsWritten | src/renderer/src/components/QuickPanel/provider.tsx:71-79 | as written, `close` adds a new pending timer, never one already pending, and overwrites the handle, while earlier timers stay pending |
| QuickPanelProvider.StaleTimerSurvivesOpen | src/renderer/src/components/QuickPanel/provider.tsx:44-82 | as written, close, close, open leaves the first close's timer pending, so it will clear the newly opened panel |
| QuickPanelProvider.Schedule | src/renderer/src/components/QuickPanel/provider.tsx:71-79 | the corrected `close` scheduling: exactly one timer is pending, the one the handle names |
| QuickPanelProvider.Fire | src/renderer/src/components/QuickPanel/provider.tsx:71-79 | a timer that fires stops being pending; the handle is left as it was; numbering, and the corrected invariant, are kept |
| QuickPanelProvider.ScheduleTimes | src/renderer/src/components/QuickPanel/provider.tsx:66-82 | after any number of corrected closes, the handle names the latest timer and no other timer is pending |
| QuickPanelProvider.OpenCancelsEveryClear | src/renderer/src/components/QuickPanel/provider.tsx:44-82 | with the corrected `close`, however many closes precede an `open`, no clear is pending after it |
| QuickPanelProvider.Installed | src/renderer/src/components/QuickPanel/provider.tsx:50-63 | `open` takes every field from the options; an absent default index is 0, page size 7, and both selection modes false; the panel becomes visible |
| QuickPanelProvider.Cleared | src/renderer/src/components/QuickPanel/provider.tsx:71-79 | the deferred clear empties the list, callbacks, title, trigger information and symbol, and keeps visibility, default index, page size and both selection modes |
| QuickPanelProvider.CloseOptions | src/renderer/src/components/QuickPanel/provider.tsx:69 | `onClose` receives the current symbol and trigger information, the given action and search text, an empty item and `multiple: false` |
| QuickPanelProvider.OpenStep | src/renderer/src/components/QuickPanel/provider.tsx:44-64 | `open` installs the configuration and cancels only the clear the handle names; other pending clears survive, and none is left when at most the handle's clear was pending |
| QuickPanelProvider.CloseWith | src/renderer/src/components/QuickPanel/provider.tsx:66-82 | the `close` a render handed out hides the live panel and keeps its configuration and list version, invokes the `onClose` of the rendered configuration, when present, with that configuration's symbol and trigger information, and adds a pending clear whose handle replaces the old one without cancelling it |
| QuickPanelProvider.CloseStep | src/renderer/src/components/QuickPanel/provider.tsx:66-82 | `close` as written, called from a render of the current configuration: hides the panel, invokes its `onClose` when present, and adds a pending clear whose handle replaces the old one without cancelling it |
| QuickPanelProvider.UpdateStep | src/renderer/src/components/QuickPanel/provider.tsx:32-42 | an identity-keyed update installs a new list and advances the list version; the `ReplaceIdentical` and `SelectionChangesOnlyIsSelected` rows state what the list becomes |
| QuickPanelProvider.CorrectedCloseStep | src/renderer/src/components/QuickPanel/provider.tsx:66-82 | the corrected `close`: the same, but the replaced clear is cancelled, so exactly the new clear is pending |
| QuickPanelProvider.FireStep | src/renderer/src/components/QuickPanel/provider.tsx:71-79 | a pending clear empties the configuration, advances the list version and stops being pending; any other timer leaves the state unchanged; every timer stays numbered |
| QuickPanelProvider.InvokeStep | src/renderer/src/components/QuickPanel/view.tsx:183-185 | invoking a callback logs it once; a sub-menu's callback installs its configuration; any other callback changes only the items, through its effect |
| QuickPanelProvider.ClearNeverOverwritesOpen | src/renderer/src/components/QuickPanel/provider.tsx:44-82 | after `open`, a timer that fires leaves the state unchanged exactly when it is not a stale clear (pending before the open but not the handle's); a stale clear empties the opened panel; with at most the handle's clear pending, no timer changes it |
| QuickPanelProvider.ReopenWithinGraceWindow | src/renderer/src/components/QuickPanel/provider.tsx:44-82 | close, then open within 200 ms, then a timer fires: the panel stays visible; the new configuration stands unless the timer is a clear still pending from before that close, which empties it |
| QuickPanelProvider.DoubleCloseClearsReopenedPanel | src/renderer/src/components/QuickPanel/provider.tsx:44-82 | as written, close, close, open within 200 ms, and the first close's clear fires: the newly opened panel is emptied while it stays visible |
| QuickPanelProvider.CorrectedReopenStands | src/renderer/src/components/QuickPanel/provider.tsx:44-82 | with the corrected `close`, close then open within 200 ms: whichever timer fires, the new configuration stands |
| QuickPanelProvider.CloseThenClear | src/renderer/src/components/QuickPanel/provider.tsx:66-82 | after `close`, the scheduled timer is pending, and firing it clears the configuration, which stays hidden |
| QuickPanelProvider.PanelStore.constructor | src/renderer/src/components/QuickPanel/provider.tsx:15-29 | the store starts hidden, with an empty symbol and list, index 0, page size 7, both selection modes off, no callbacks and no timer |
| QuickPanelProvider.PanelStore.Open | src/renderer/src/components/QuickPanel/provider.tsx:44-64 | the new state is `OpenStep` of the old one |
| QuickPanelProvider.PanelStore.Close | src/renderer/src/components/QuickPanel/provider.tsx:66-82 | the new state is `CloseStep` of the old one: hidden, `onClose` invoked when present, a clear scheduled over the handle without cancelling the old one |
| QuickPanelProvider.PanelStore.CloseBound | src/renderer/src/components/QuickPanel/provider.tsx:66-82 | the new state is `CloseWith` of the old one and the configuration the calling render saw: the callback closes over that render's `onClose`, symbol and trigger information |
| QuickPanelProvider.PanelStore.FireClearTimer | src/renderer/src/components/QuickPanel/provider.tsx:71-79 | the new state is `FireStep` of the old one: a pending timer clears the configuration, and any other timer does nothing |
| QuickPanelProvider.PanelStore.UpdateItemSelection | src/renderer/src/components/QuickPanel/provider.tsx:32-34 | the list becomes `ReplaceIdentical` with the selection setter, and the list version advances |
| QuickPanelProvider.PanelStore.UpdateItem | src/renderer/src/components/QuickPanel/provider.tsx:37-42 | the list becomes `ReplaceIdentical` with the updater, and the list version advances |
| QuickPanelProvider.PanelStore.Invoke | src/renderer/src/components/QuickPanel/view.tsx:183-185 | the new state is `InvokeStep` of the old one |
| QuickPanelSearch.StripTrigger | src/renderer/src/components/QuickPanel/view.tsx:69 | one leading `/` or `@` is removed, and nothing else |
| QuickPanelSearch.IsTrigger | src/renderer/src/components/QuickPanel/view.tsx:69 | the trigger characters are `/` and `@`, the two a search text may start with and the two `lastIndexOf` looks for |
| QuickPanelSearch.HasCJK | src/renderer/src/components/QuickPanel/view.tsx:93 | the text holds a character in U+4E00 to U+9FA5, the range of the pinyin test |
| QuickPanelSearch.IsLineTerminator | src/renderer/src/components/QuickPanel/view.tsx:92 | the characters a regex `.` does not match: LF, CR, U+2028 and U+2029 |
| QuickPanelSearch.IsCJK | src/renderer/src/components/QuickPanel/view.tsx:93 | one character of the class `[\u4e00-\u9fa5]`: code points U+4E00 to U+9FA5 inclusive |
| QuickPanelSearch.Contains | src/renderer/src/components/QuickPanel/view.tsx:83 | `includes`: the query occurs in the text as a contiguous block, the empty query everywhere; `ContainsIffOccurrence` ties it to an occurrence at a position |
| QuickPanelSearch.Follows | src/renderer/src/components/QuickPanel/view.tsx:87-103 | the rest of the pattern `q[0].*q[1].*…` matched from a position: the next query character is the character there, or `.` consumes that character when it is not a line terminator |
| QuickPanelSearch.MatchesAt | src/renderer/src/components/QuickPanel/view.tsx:87-103 | the pattern matched starting exactly at a position: the first query character is there and the rest follows |
| QuickPanelSearch.SearchFrom | src/renderer/src/components/QuickPanel/view.tsx:96-103 | `RegExp.test` from a fresh regex: a match starts at the given position or later; `FuzzyMatchIffSubsequence` proves it is "a subsequence" on text without line breaks |
| QuickPanelSearch.IsSubsequence | src/renderer/src/components/QuickPanel/view.tsx:87-92 | the reference meaning of the `.*`-joined pattern: the query is obtained from the text by deleting characters; `FuzzyMatchIffSubsequence` and `PassesIffSubsequence` are proved against it |
| QuickPanelSearch.ContainsIffOccurrence | src/renderer/src/components/QuickPanel/view.tsx:83 | `includes` holds exactly when the query occurs at some position of the text |
| QuickPanelSearch.Filter | src/renderer/src/components/QuickPanel/view.tsx:68-105 | the filtered list is a subsequence of the list; every item in it passes the test, and every passing item of the list is in it |
| QuickPanelSearch.FilterKeepsCopies | src/renderer/src/components/QuickPanel/view.tsx:68-105 | the filtered list holds each passing item exactly as many times as the list does, and no other item |
| QuickPanelSearch.Corpus | src/renderer/src/components/QuickPanel/view.tsx:72-78 | the searched text starts with the item's `filterText` (empty when it has none) and continues with the label's text; without a description it is exactly those two |
| QuickPanelSearch.TextOf | src/renderer/src/components/QuickPanel/view.tsx:73-78 | the text a label or description adds to the searched text: the string itself when `typeof` is `'string'`, nothing for an element |
| QuickPanelSearch.Passes | src/renderer/src/components/QuickPanel/view.tsx:72-104 | an empty query after the trigger keeps the item; a lower-cased substring match keeps it; a CJK text whose pinyin conversion fails is kept |
| QuickPanelSearch.FuzzyMatch | src/renderer/src/components/QuickPanel/view.tsx:87-103 | the `.*` pattern match accepts every substring match and only subsequences of the text |
| QuickPanelSearch.FilterList | src/renderer/src/components/QuickPanel/view.tsx:66-68 | a hidden panel without a symbol shows nothing; otherwise the list is filtered |
| QuickPanelSearch.FocusAfterFilter | src/renderer/src/components/QuickPanel/view.tsx:107 | an empty result focuses -1; a non-empty one focuses the default index, which is in range whenever the default index is |
| QuickPanelSearch.EmptyQueryKeepsEverything | src/renderer/src/components/QuickPanel/view.tsx:69-70 | a query that is empty after removing the trigger keeps every item |
| QuickPanelSearch.FilterIdempotent | src/renderer/src/components/QuickPanel/view.tsx:68-105 | filtering twice by the same text is filtering once |
| QuickPanelSearch.AlwaysVisibleNotExempt | src/renderer/src/components/QuickPanel/view.tsx:68-105 | whether an item passes does not depend on `alwaysVisible` |
| QuickPanelSearch.PrefixFollows | src/renderer/src/components/QuickPanel/view.tsx:87-92 | a query that starts the text at a position matches the `.*` pattern from there |
| QuickPanelSearch.ContainsFrom | src/renderer/src/components/QuickPanel/view.tsx:87-103 | a substring of the rest of the text is found by the pattern search from that position |
| QuickPanelSearch.ContainsImpliesFuzzyMatch | src/renderer/src/components/QuickPanel/view.tsx:83-103 | every substring match is also a pattern match |
| QuickPanelSearch.FollowsImpliesSubsequence | src/renderer/src/components/QuickPanel/view.tsx:87-92 | a pattern match anchored at a position makes the query a subsequence of the rest of the text |
| QuickPanelSearch.SubsequenceImpliesFollows | src/renderer/src/components/QuickPanel/view.tsx:87-92 | on a text without line breaks, an anchored subsequence matches the pattern |
| QuickPanelSearch.SearchFromImpliesSubsequence | src/renderer/src/components/QuickPanel/view.tsx:96-103 | the regex search from a position finds only subsequences of the rest of the text |
| QuickPanelSearch.SubsequenceImpliesSearchFrom | src/renderer/src/components/QuickPanel/view.tsx:96-103 | on a text without line breaks, the regex search finds every subsequence |
| QuickPanelSearch.FuzzyMatchImpliesSubsequence | src/renderer/src/components/QuickPanel/view.tsx:87-103 | every pattern match is a subsequence |
| QuickPanelSearch.FuzzyMatchIffSubsequence | src/renderer/src/components/QuickPanel/view.tsx:87-103 | on a text without line breaks, a pattern match is exactly a subsequence |
| QuickPanelSearch.FuzzyMatchStopsAtLineBreak | src/renderer/src/components/QuickPanel/view.tsx:87-103 | `.*` does not cross a line break: "ab" is a subsequence of "a\nb" but does not match it |
| QuickPanelSearch.PassesIffSubsequence | src/renderer/src/components/QuickPanel/view.tsx:68-105 | without pinyin in play and on one line, an item passes exactly when the lower-cased query is empty or a subsequence of the lower-cased text |
| QuickPanelSearch.SubstringPasses | src/renderer/src/components/QuickPanel/view.tsx:80-85 | an item whose text contains the query always passes |
| QuickPanelSearch.PassesWithCJK | src/renderer/src/components/QuickPanel/view.tsx:93-100 | with CJK text, the pattern is matched against the pinyin; a failed conversion lets the item pass |
| QuickPanelSearch.FilterCommutesWithUpdate | src/renderer/src/components/QuickPanel/view.tsx:66-110 | an in-place update that keeps every item's text commutes with the filter |
| QuickPanelNavigation.StepUp | src/renderer/src/components/QuickPanel/view.tsx:306 | Arrow Up moves one row up; from the first row (or above) it wraps to the last row; the focus stays in range |
| QuickPanelNavigation.StepDown | src/renderer/src/components/QuickPanel/view.tsx:319 | Arrow Down moves one row down; from the last row (or below) it wraps to the first row; the focus stays in range |
| QuickPanelNavigation.PageUp | src/renderer/src/components/QuickPanel/view.tsx:323-329 | Page Up moves a page up when that stays at or above 0, and otherwise stops at 0 |
| QuickPanelNavigation.PageDown | src/renderer/src/components/QuickPanel/view.tsx:331-337 | Page Down moves a page down when that stays in the list, and otherwise stops at the last row; the focus stays in range |
| QuickPanelNavigation.JumpUp | src/renderer/src/components/QuickPanel/view.tsx:299-304 | modifier + Arrow Up from the first row wraps to the last; from any other row it moves a page up, stopping at 0; the focus stays in range |
| QuickPanelNavigation.JumpDown | src/renderer/src/components/QuickPanel/view.tsx:312-317 | modifier + Arrow Down from the last row wraps to the first; from any other row it moves a page down, stopping at the last row; the focus stays in range |
| QuickPanelNavigation.StepUpUndoesStepDown | src/renderer/src/components/QuickPanel/view.tsx:306-319 | within the list, one step down then one up (and the reverse) returns to the same row |
| QuickPanelNavigation.JumpIsPageAwayFromEdges | src/renderer/src/components/QuickPanel/view.tsx:297-337 | away from its wrapping edge, a modifier jump is the same as Page Up or Page Down |
| QuickPanelNavigation.IndexAfterKey | src/renderer/src/components/QuickPanel/view.tsx:296-337 | only arrow and page keys move the focus, and each keeps a focus in range |
| QuickPanelNavigation.ReleasesMouse | src/renderer/src/components/QuickPanel/view.tsx:285-294 | Arrow Up, Arrow Down, Page Up, Page Down and Escape always take the focus from the mouse; Arrow Left and Arrow Right do exactly when the modifier is held; Enter and any other key never do |
| QuickPanelNavigation.ListHeight | src/renderer/src/components/QuickPanel/view.tsx:420-422 | the list height is 31 px times the smaller of the page size and the row count |
| QuickPanelNavigation.CanForwardAndBackward | src/renderer/src/components/QuickPanel/view.tsx:112-114 | navigation hints show exactly when some row is a sub-menu or the history is not empty |
| QuickPanelNavigation.HasMenu | src/renderer/src/components/QuickPanel/view.tsx:113 | `some(isMenu)` holds exactly when some row is a sub-menu |
| QuickPanelNavigation.AnyMenu | src/renderer/src/components/QuickPanel/view.tsx:113 | the reference for `list.some((item) => item.isMenu)`: some row is a sub-menu; `HasMenu` is proved equal to it |
| QuickPanelNavigation.SuffixFor | src/renderer/src/components/QuickPanel/view.tsx:556-566 | a truthy suffix is shown as given; otherwise a count above 1 shows `x<count>`, otherwise a selected row shows a check, otherwise an enabled sub-menu shows an arrow |
| QuickPanelTypes.Truthy | src/renderer/src/components/QuickPanel/view.tsx:557 | JavaScript truthiness of an optional `suffix`: absent content and the empty string are falsy, every element is truthy; `SuffixFor` uses it for the precedence of `suffix` |
| QuickPanelNavigation.NoSuffixIffPlain | src/renderer/src/components/QuickPanel/view.tsx:556-566 | a row shows nothing at the right exactly when it has no suffix, no repeat count, no selection and is not an enabled sub-menu |
| QuickPanelView.RenderStep | src/renderer/src/components/QuickPanel/view.tsx:66-110 | a render leaves the view consistent with the memo's inputs and the panel's visibility, touches only the focus, memo key, ref and listener state, schedules one search reset exactly when a shown panel has hidden, and does nothing when already consistent |
| QuickPanelView.MemoStep | src/renderer/src/components/QuickPanel/view.tsx:66-110 | the memo changes only the focus and its cache key; afterwards the key is that of the current store and search text, and a view whose key already matched is left as it was |
| QuickPanelView.RefStep | src/renderer/src/components/QuickPanel/view.tsx:214-216 | the ref effect changes only the ref and the search text it last copied; afterwards that copy is the current search text, and a view already in step is left as it was |
| QuickPanelView.EffectStep | src/renderer/src/components/QuickPanel/view.tsx:220-265 | the listener effect re-runs when `ctx.isVisible` changes; the cleanup of its run on a shown panel adds one pending search reset, and nothing else changes |
| QuickPanelView.FireSearchResetStep | src/renderer/src/components/QuickPanel/view.tsx:259-261 | a pending reset empties the search text and stops being pending, whether or not the panel was reopened; with none pending nothing changes |
| QuickPanelView.ResetBeforeReopenShowsEverything | src/renderer/src/components/QuickPanel/view.tsx:220-265 | Escape schedules one reset; once it fires the search text is empty, and a panel opened afterwards shows its whole list |
| QuickPanelView.EscapeThenReopen | src/renderer/src/components/QuickPanel/view.tsx:220-265 | Escape, a render, a reopen and a render leave a shown, well-formed panel, not composing, with one search reset pending |
| QuickPanelView.StaleResetEmptiesReopenedSearch | src/renderer/src/components/QuickPanel/view.tsx:220-265 | a reopen within 200 ms does not cancel the earlier close's reset: it empties a search typed into the reopened panel while the text area keeps it |
| QuickPanelView.RecordedSearch | src/renderer/src/components/QuickPanel/view.tsx:119-123 | a non-empty ref is kept; an empty ref becomes the trigger just before the caret when there is one and stays empty otherwise |
| QuickPanelView.ClearSearch | src/renderer/src/components/QuickPanel/view.tsx:116-147 | the ref is recorded first; the search text is reset exactly when the pattern is non-empty; a rewritten text area is valid with its caret no later than before |
| QuickPanelView.ClearStep | src/renderer/src/components/QuickPanel/view.tsx:116-147 | only the ref, the text area and the search text change, each as `ClearSearch` decides |
| QuickPanelView.ClearRemovesPattern | src/renderer/src/components/QuickPanel/view.tsx:116-147 | `clearSearchText` removes the pattern from the text exactly when it ends the text before the caret, puts the caret at its start, keeps the text after the caret, and resets the search exactly when the pattern is non-empty |
| QuickPanelView.ClearTwiceIsClearOnce | src/renderer/src/components/QuickPanel/view.tsx:116-147 | clearing again on the same text and the recorded ref gives the same outcome |
| QuickPanelView.NavigateStep | src/renderer/src/components/QuickPanel/view.tsx:296-337 | an arrow or page key moves the focus as `IndexAfterKey` says and marks the scroll as keyboard-driven; nothing else changes and an in-range focus stays in range |
| QuickPanelView.HistoryEntry | src/renderer/src/components/QuickPanel/view.tsx:189-201 | the history entry saves title, list, symbol, multiple, page size, the three callbacks and the focused row as default index; `multipleRepeat` and `triggerInfo` are not saved |
| QuickPanelView.LastIndexOf | src/renderer/src/components/QuickPanel/view.tsx:231-232 | `lastIndexOf` returns the last position of the character, or -1 when it does not occur |
| QuickPanelView.SymbolIndex | src/renderer/src/components/QuickPanel/view.tsx:231-233 | the result is the last `/` or `@`, or -1 when there is none |
| QuickPanelView.SearchTextAt | src/renderer/src/components/QuickPanel/view.tsx:229-240 | the search text runs from the last trigger before the caret up to the caret; there is none exactly when no trigger precedes the caret |
| QuickPanelView.ItemOptions | src/renderer/src/components/QuickPanel/view.tsx:171-181 | callbacks receive the item, action, symbol, search text and modifier flag; the mode is `add` exactly when Shift is held |
| QuickPanelView.ReopenRestoresPanel | src/renderer/src/components/QuickPanel/view.tsx:189-202 | reopening a history entry restores the configuration with the focused row as default index; `multipleRepeat` and `triggerInfo` return to their defaults |
| QuickPanelView.Dispatched | src/renderer/src/components/QuickPanel/view.tsx:183-185 | `beforeAction`, the item's action, then `afterAction` are invoked in that order, each when present |
| QuickPanelView.CloseViewStep | src/renderer/src/components/QuickPanel/view.tsx:149-165 | `handleClose` closes the store through the `close` of the last render (the snapshot's `onClose`, symbol and trigger information), empties the history and resets scrolling; after `delete-symbol` the text area is re-read; after any other action except none, "", `outsideclick`, `esc` and `enter_empty`, the trigger and search text are cleared; otherwise nothing else changes |
| QuickPanelView.ErasesInput | src/renderer/src/components/QuickPanel/view.tsx:160 | the close actions after which the trigger and search text are erased: any non-empty action except `outsideclick`, `esc` and `enter_empty` |
| QuickPanelView.SearchPattern | src/renderer/src/components/QuickPanel/view.tsx:125 | the text `clearSearchText` removes: the ref with its trigger, or without its leading trigger; the `ClearRemovesPattern` row states the removal |
| QuickPanelView.IsSuffix | src/renderer/src/components/QuickPanel/view.tsx:130-133 | the `${_searchText}$` match on the text before the caret, read as a literal: the pattern ends that text; `ClearRemovesPattern` states what is then removed |
| QuickPanelView.ItemsOf | src/renderer/src/components/QuickPanel/view.tsx:66-110 | the list the filter memo holds: `FilterList` of the store's visibility, symbol and list by the search text; `CountingKeepsFilteredList` shows in-place counting keeps it current |
| QuickPanelView.KeyOf | src/renderer/src/components/QuickPanel/view.tsx:110 | the memo's dependency list: default index, visibility, the list (by the version of the installed array), symbol and search text; `MemoStep` re-runs exactly when it changes |
| QuickPanelView.SnapshotOf | src/renderer/src/components/QuickPanel/view.tsx:211 | what a handler of the last render sees: the store's configuration, the search text, the focus, the modifier flag, the memo's list and the text area |
| QuickPanelView.IsNavigationKey | src/renderer/src/components/QuickPanel/view.tsx:296-337 | the keys that move the focus: Arrow Up, Arrow Down, Page Up and Page Down; `KeyActionStep` sends exactly these to `NavigateStep` |
| QuickPanelView.RowsLive | src/renderer/src/components/QuickPanel/view.tsx:458 | rows take pointer events only on a shown panel once the mouse has moved in it; the `RowClickOutcome` row states its effect |
| QuickPanelView.SettleStep | src/renderer/src/components/QuickPanel/view.tsx:187-209 | what follows the callbacks keeps the world well formed (outcomes in `ItemActionOutcome`) |
| QuickPanelView.ItemActionStep | src/renderer/src/components/QuickPanel/view.tsx:167-212 | `handleItemAction` keeps the world well formed (outcomes in `ItemActionOutcome` and `DisabledItemDoesNothing`) |
| QuickPanelView.BackStep | src/renderer/src/components/QuickPanel/view.tsx:339-350 | going back keeps the world well formed (outcome in `BackReopensLastEntry`) |
| QuickPanelView.ForwardStep | src/renderer/src/components/QuickPanel/view.tsx:352-358 | going forward keeps the world well formed (outcome in `ForwardEntersMenu`) |
| QuickPanelView.EnterStep | src/renderer/src/components/QuickPanel/view.tsx:360-373 | Enter keeps the world well formed (outcomes in `EnterOnEmptyCloses` and `ItemActionOutcome`) |
| QuickPanelView.KeyDownStep | src/renderer/src/components/QuickPanel/view.tsx:280-378 | a key down keeps the world well formed (outcomes in the key lemmas below) |
| QuickPanelView.KeyActionStep | src/renderer/src/components/QuickPanel/view.tsx:296-377 | the `switch` on the key keeps the world well formed; an arrow or page key is `NavigateStep`, and a key without a case changes nothing |
| QuickPanelView.KeyUpStep | src/renderer/src/components/QuickPanel/view.tsx:380-384 | a key up changes only the modifier flag and no store state; afterwards the flag is set exactly when it was set and the modifier is still held or the panel is hidden |
| QuickPanelView.InputStep | src/renderer/src/components/QuickPanel/view.tsx:225-241 | an edit keeps the world well formed and makes the new text and caret the text area (outcomes in `InputOutcome`) |
| QuickPanelView.CompositionUpdateStep | src/renderer/src/components/QuickPanel/view.tsx:243-245 | a composition update changes only the composing flag; afterwards it is set exactly when it was set or the panel is shown |
| QuickPanelView.CompositionEndStep | src/renderer/src/components/QuickPanel/view.tsx:247-250 | the end of a composition keeps the world well formed (outcome in `CompositionEndReadsSearch`) |
| QuickPanelView.ClickOutsideStep | src/renderer/src/components/QuickPanel/view.tsx:386-392 | a click keeps the world well formed (outcome in `ClickOutsideCloses`) |
| QuickPanelView.RowClickStep | src/renderer/src/components/QuickPanel/view.tsx:544-547 | a row click keeps the world well formed (outcome in `RowClickOutcome`) |
| QuickPanelView.MouseEnterStep | src/renderer/src/components/QuickPanel/view.tsx:548 | hovering changes only the focus; hovering a row in range while rows are live focuses that row, and nothing changes while rows are not live |
| QuickPanelView.MouseMoveStep | src/renderer/src/components/QuickPanel/view.tsx:443-448 | a mouse move changes only the mouse flag and the scroll trigger; over a shown panel the rows become live and the trigger becomes `initial`, and over a hidden panel nothing changes |
| QuickPanelView.CountingKeepsFilteredList | src/renderer/src/pages/home/Inputbar/MentionModelsButton.tsx:142-149 | the selection counter's in-place update commutes with the filter, so the memo's cached list stays current |
| QuickPanelView.DisabledItemDoesNothing | src/renderer/src/components/QuickPanel/view.tsx:169 | a disabled item invokes nothing and changes nothing |
| QuickPanelView.ItemActionOutcome | src/renderer/src/components/QuickPanel/view.tsx:167-212 | an enabled item runs the three callbacks; then a sub-menu pushes one history entry, stays open and leaves the view with that entry and the search cleared; a multi-select gesture stays open with the view unchanged; anything else closes with the given action through the last render's `close`, so the rendered panel's `onClose` is the one invoked, and empties the history |
| QuickPanelView.ActionOpeningPanelClosesRenderedOne | src/renderer/src/components/QuickPanel/view.tsx:167-212 | when an item's action opens another panel and the item then closes the panel, the new configuration is installed and hidden, and the `onClose` invoked is the rendered panel's, with its symbol, not the new panel's |
| QuickPanelView.EscapeClosesOnce | src/renderer/src/components/QuickPanel/view.tsx:374-376 | Escape closes with `esc`, invokes `onClose` once when present, and keeps the text |
| QuickPanelView.NavigationStaysInRange | src/renderer/src/components/QuickPanel/view.tsx:296-337 | arrow and page keys keep the focus in the list and do not touch the store |
| QuickPanelView.BackReopensLastEntry | src/renderer/src/components/QuickPanel/view.tsx:339-350 | modifier + Arrow Left reopens the last history entry and pops it; the view is the old one with the mouse released, the scroll trigger reset, the search cleared and the last entry removed |
| QuickPanelView.SideArrowsNeedModifier | src/renderer/src/components/QuickPanel/view.tsx:339-358 | without the modifier, Arrow Left and Arrow Right change nothing |
| QuickPanelView.ForwardEntersMenu | src/renderer/src/components/QuickPanel/view.tsx:352-358 | modifier + Arrow Right on a focused sub-menu runs its callbacks with `enter` and pushes the current panel, with the focused row, on the history; the view is cleared by the arrow handler and again by the sub-menu action, with the mouse released, the scroll trigger reset and the entry pushed |
| QuickPanelView.ForwardActsOnFocused | src/renderer/src/components/QuickPanel/view.tsx:352-358 | modifier + Arrow Right on a focused sub-menu is the item action with `enter`, run on the view with the mouse released, the scroll trigger reset and the search cleared |
| QuickPanelView.EnterOnEmptyCloses | src/renderer/src/components/QuickPanel/view.tsx:360-373 | Enter with nothing focused closes with `enter_empty` and keeps the text |
| QuickPanelView.InputOutcome | src/renderer/src/components/QuickPanel/view.tsx:225-241 | an edit re-reads the search text after the last trigger, or closes with `delete-symbol` when no trigger is left; during composition only the text changes |
| QuickPanelView.CompositionEndReadsSearch | src/renderer/src/components/QuickPanel/view.tsx:247-250 | the end of a composition clears the composing flag and reads the search text as an edit does |
| QuickPanelView.ClickOutsideCloses | src/renderer/src/components/QuickPanel/view.tsx:386-392 | a click outside both the input bar and the panel closes with `outsideclick` and keeps the text; any other click changes nothing |
| QuickPanelView.RowClickOutcome | src/renderer/src/components/QuickPanel/view.tsx:544-547 | before the mouse has moved, a row click does nothing; otherwise a plain row outside a multi-select gesture runs its callbacks and closes with `click` |
| QuickPanelView.RenderResetsFocus | src/renderer/src/components/QuickPanel/view.tsx:107 | after the memo's inputs change on a shown panel, an empty result focuses -1 and a non-empty one focuses the default index, which is in range when the default index is |
| QuickPanelView.PanelView.constructor | src/renderer/src/components/QuickPanel/view.tsx:47-63 | the view starts with empty search text, the store's default index, no history and no flags, rendered |
| QuickPanelView.PanelView.Render | src/renderer/src/components/QuickPanel/view.tsx:66-110 | the new world is `RenderStep` of the old one |
| QuickPanelView.PanelView.RunMemo | src/renderer/src/components/QuickPanel/view.tsx:66-110 | the view after the memo is `MemoStep` of the old world |
| QuickPanelView.PanelView.SyncRef | src/renderer/src/components/QuickPanel/view.tsx:214-216 | the view after the ref effect is `RefStep` of the old view |
| QuickPanelView.PanelView.RunListenerEffect | src/renderer/src/components/QuickPanel/view.tsx:220-265 | the view after the listener effect is `EffectStep` of the old view and the store's visibility |
| QuickPanelView.PanelView.FireSearchReset | src/renderer/src/components/QuickPanel/view.tsx:259-261 | the new world is `FireSearchResetStep` of the old one |
| QuickPanelView.PanelView.ClearSearchText | src/renderer/src/components/QuickPanel/view.tsx:116-147 | the new view state is `ClearStep` of the old one |
| QuickPanelView.PanelView.HandleClose | src/renderer/src/components/QuickPanel/view.tsx:149-165 | the new world is `CloseViewStep` of the old one |
| QuickPanelView.PanelView.HandleItemAction | src/renderer/src/components/QuickPanel/view.tsx:167-212 | the new world is `ItemActionStep` of the old one |
| QuickPanelView.PanelView.Settle | src/renderer/src/components/QuickPanel/view.tsx:187-209 | the new world is `SettleStep` of the old one |
| QuickPanelView.PanelView.KeyDown | src/renderer/src/components/QuickPanel/view.tsx:280-378 | the new world is `KeyDownStep` of the old one |
| QuickPanelView.PanelView.HandleKey | src/renderer/src/components/QuickPanel/view.tsx:296-377 | the new world is `KeyActionStep` of the old one |
| QuickPanelView.PanelView.GoBack | src/renderer/src/components/QuickPanel/view.tsx:339-350 | the new world is `BackStep` of the old one |
| QuickPanelView.PanelView.GoForward | src/renderer/src/components/QuickPanel/view.tsx:352-358 | the new world is `ForwardStep` of the old one |
| QuickPanelView.PanelView.Confirm | src/renderer/src/components/QuickPanel/view.tsx:360-373 | the new world is `EnterStep` of the old one |
| QuickPanelView.PanelView.KeyUp | src/renderer/src/components/QuickPanel/view.tsx:380-384 | releasing the modifier clears the modifier flag |
| QuickPanelView.PanelView.Input | src/renderer/src/components/QuickPanel/view.tsx:225-241 | the new world is `InputStep` of the old one |
| QuickPanelView.PanelView.CompositionUpdate | src/renderer/src/components/QuickPanel/view.tsx:243-245 | composition sets the composing flag |
| QuickPanelView.PanelView.CompositionEnd | src/renderer/src/components/QuickPanel/view.tsx:247-250 | the new world is `CompositionEndStep` of the old one |
| QuickPanelView.PanelView.ClickOutside | src/renderer/src/components/QuickPanel/view.tsx:386-392 | the new world is `ClickOutsideStep` of the old one |
| QuickPanelView.PanelView.RowClick | src/renderer/src/components/QuickPanel/view.tsx:544-547 | the new world is `RowClickStep` of the old one |
| QuickPanelView.PanelView.MouseEnter | src/renderer/src/components/QuickPanel/view.tsx:548 | hovering a live row focuses it |
| QuickPanelView.PanelView.MouseMove | src/renderer/src/components/QuickPanel/view.tsx:443-448 | moving the mouse in the panel makes rows live and resets scrolling |
| Models.UniqIds | src/renderer/src/pages/home/Inputbar/MentionModelsButton.tsx:48 | the unique ids of the models, one per model, in order |
| Models.OccurrencesSnoc | src/renderer/src/pages/home/Inputbar/MentionModelsButton.tsx:46-53 | one more model adds one to its own id's count and nothing to any other |
| Models.Occurrences | src/renderer/src/pages/home/Inputbar/MentionModelsButton.tsx:46-53 | the number of mentioned models with a given unique id; the `MentionModelCounts` row proves the counts record equals it |
| MentionModelsButton.MentionModelCounts | src/renderer/src/pages/home/Inputbar/MentionModelsButton.tsx:46-53 | the counts record has a key for exactly the mentioned ids, and each holds the number of times that id is mentioned |
| MentionModelsButton.CountOf | src/renderer/src/pages/home/Inputbar/MentionModelsButton.tsx:62 | `mentionModelCounts[id]` with 0 as the fallback: the recorded count of an id, or 0 when it was not mentioned; `MentionItemsMeaning` ties it to `Occurrences` |
| MentionModelsButton.PinnedOf | src/renderer/src/pages/home/Inputbar/MentionModelsButton.tsx:57-59 | a provider's pinned entries are exactly its chat models that are pinned |
| MentionModelsButton.PinnedEntries | src/renderer/src/pages/home/Inputbar/MentionModelsButton.tsx:56-82 | the flat map holds exactly the pinned chat models of all providers, each with its own provider |
| MentionModelsButton.Listed | src/renderer/src/pages/home/Inputbar/MentionModelsButton.tsx:58 | a chat model: neither an embedding nor a rerank model (the same filter is at line 92); the `OfferedModels` row proves that exactly these models are offered |
| MentionModelsButton.IsPinned | src/renderer/src/pages/home/Inputbar/MentionModelsButton.tsx:59 | a model is pinned when its unique id is in the pinned-model list; the `PinnedOf` and `Unpinned` rows use it |
| MentionModelsButton.Unpinned | src/renderer/src/pages/home/Inputbar/MentionModelsButton.tsx:91-93 | a model is kept exactly when it is a chat model and not pinned; the kept models are a subsequence of the provider's |
| MentionModelsButton.UnpinnedKeepsCopies | src/renderer/src/pages/home/Inputbar/MentionModelsButton.tsx:91-93 | each kept model appears as many times as the provider lists it |
| MentionModelsButton.StrLess | src/renderer/src/pages/home/Inputbar/MentionModelsButton.tsx:94 | JavaScript `<` on strings, as lodash `sortBy` compares keys: the first differing character decides, and a proper prefix comes first (characters compared as code points; see Left out) |
| MentionModelsButton.StrLessIrreflexive | src/renderer/src/pages/home/Inputbar/MentionModelsButton.tsx:94 | no string is less than itself |
| MentionModelsButton.StrLessTrichotomy | src/renderer/src/pages/home/Inputbar/MentionModelsButton.tsx:90-95 | string `<` is a strict total order: exactly one of equal, less or greater (equal strings are not less, as `StrLessIrreflexive` also states) |
| MentionModelsButton.StrLessTransitive | src/renderer/src/pages/home/Inputbar/MentionModelsButton.tsx:90-95 | string `<` is transitive |
| MentionModelsButton.ModelBefore | src/renderer/src/pages/home/Inputbar/MentionModelsButton.tsx:90-95 | the `sortBy(…, ['group', 'name'])` order: a smaller group first, and within one group a name that is not greater; `ModelBeforeTotal` and `ModelBeforeTransitive` make it a total preorder |
| MentionModelsButton.ModelBeforeTotal | src/renderer/src/pages/home/Inputbar/MentionModelsButton.tsx:90-95 | any two models are ordered one way or the other by group, then name |
| MentionModelsButton.SortedByGroupName | src/renderer/src/pages/home/Inputbar/MentionModelsButton.tsx:90-95 | the order `sortBy` produces: every model may precede every later one by group, then name; `SortByGroupNameCorrect` proves the sort meets it |
| MentionModelsButton.ModelBeforeTransitive | src/renderer/src/pages/home/Inputbar/MentionModelsButton.tsx:90-95 | ordering by group, then name, is transitive |
| MentionModelsButton.InsertModelPermutes | src/renderer/src/pages/home/Inputbar/MentionModelsButton.tsx:90-95 | insertion adds exactly the one model |
| MentionModelsButton.InsertModelSorted | src/renderer/src/pages/home/Inputbar/MentionModelsButton.tsx:90-95 | insertion into a sorted list keeps it sorted |
| MentionModelsButton.InsertModel | src/renderer/src/pages/home/Inputbar/MentionModelsButton.tsx:90-95 | one step of the insertion sort adds exactly one model (its order, stability and permutation are the `InsertModelSorted`, `InsertModelStable` and `InsertModelPermutes` rows) |
| MentionModelsButton.SortByGroupNameCorrect | src/renderer/src/pages/home/Inputbar/MentionModelsButton.tsx:90-95 | `sortBy(['group', 'name'])` returns a permutation of its input, sorted by group and then name |
| MentionModelsButton.SortByGroupName | src/renderer/src/pages/home/Inputbar/MentionModelsButton.tsx:90-95 | the sort keeps the number of models |
| MentionModelsButton.InsertModelStable | src/renderer/src/pages/home/Inputbar/MentionModelsButton.tsx:90-95 | inserting a model keeps the relative order of the models with any one group and name, and puts the inserted model before those already there with its key |
| MentionModelsButton.SortByGroupNameStable | src/renderer/src/pages/home/Inputbar/MentionModelsButton.tsx:90-95 | the sort is stable: models with the same group and name keep their relative order |
| MentionModelsButton.ModelItem | src/renderer/src/pages/home/Inputbar/MentionModelsButton.tsx:60-80 | a model row is selected exactly when the model was mentioned, carries the mention count, filters on provider name plus model name, and calls `onMentionModel` for the model |
| MentionModelsButton.AddModelItem | src/renderer/src/pages/home/Inputbar/MentionModelsButton.tsx:125-130 | the closing row is labelled with the translated "add model" text and "...", is not selected, and navigates to the provider settings |
| MentionModelsButton.EntriesOf | src/renderer/src/pages/home/Inputbar/MentionModelsButton.tsx:97 | each model becomes one entry with its provider, in order |
| MentionModelsButton.ProviderBlock | src/renderer/src/pages/home/Inputbar/MentionModelsButton.tsx:90-118 | one provider's block: its unpinned chat models sorted by group and name, each with the provider; the `BlockShape` and `ProviderBlocksSorted` rows state its contents and order |
| MentionModelsButton.ProviderEntries | src/renderer/src/pages/home/Inputbar/MentionModelsButton.tsx:89-123 | the provider blocks, concatenated in provider order; their contents and order are the `ProviderEntriesShape` and `ProviderBlocksSorted` rows |
| MentionModelsButton.LeadEntries | src/renderer/src/pages/home/Inputbar/MentionModelsButton.tsx:56-87 | without pinned ids there is no pinned block; otherwise the block is `PinnedEntries` |
| MentionModelsButton.Entries | src/renderer/src/pages/home/Inputbar/MentionModelsButton.tsx:55-123 | the pinned block followed by the provider blocks; which models it offers is the `OfferedModels` row |
| MentionModelsButton.ItemsForAppend | src/renderer/src/pages/home/Inputbar/MentionModelsButton.tsx:120-122 | pushing the items of two blocks in turn gives the items of their concatenation |
| MentionModelsButton.PushPinned | src/renderer/src/pages/home/Inputbar/MentionModelsButton.tsx:55-87 | the list starts with one item for each pinned entry, in order |
| MentionModelsButton.PushItems | src/renderer/src/pages/home/Inputbar/MentionModelsButton.tsx:55-132 | the list is the pinned items, then each provider's block, then "add model" |
| MentionModelsButton.MentionItems | src/renderer/src/pages/home/Inputbar/MentionModelsButton.tsx:55-132 | the whole list for given counts: one model row per entry, then "add model"; the `MentionItemsMeaning` row states what each row carries |
| MentionModelsButton.ItemsFor | src/renderer/src/pages/home/Inputbar/MentionModelsButton.tsx:97-118 | the rows of a block of entries, numbered from a start id, each counted from the mentions; the `ItemsForAppend` and `MentionItemsMeaning` rows state its properties |
| MentionModelsButton.MentionItemsMeaning | src/renderer/src/pages/home/Inputbar/MentionModelsButton.tsx:60-130 | each model row carries the number of times its model is mentioned and is selected exactly when that number is positive; the last row is "add model", unselected |
| MentionModelsButton.BuildModelItems | src/renderer/src/pages/home/Inputbar/MentionModelsButton.tsx:44-133 | one row per entry, counted from the mentions, then "add model" |
| MentionModelsButton.BlockShape | src/renderer/src/pages/home/Inputbar/MentionModelsButton.tsx:89-118 | a provider's block holds exactly its unpinned chat models |
| MentionModelsButton.ProviderEntriesShape | src/renderer/src/pages/home/Inputbar/MentionModelsButton.tsx:89-123 | the provider blocks together hold exactly the unpinned chat models of all providers |
| MentionModelsButton.OfferedModels | src/renderer/src/pages/home/Inputbar/MentionModelsButton.tsx:44-133 | every chat model of every provider is offered; only chat models are offered; pinned ones come first and unpinned ones after |
| MentionModelsButton.ProviderBlocksSorted | src/renderer/src/pages/home/Inputbar/MentionModelsButton.tsx:89-123 | each provider's block is its unpinned chat models, sorted by group and name, as a permutation |
| MentionModelsButton.ShowsMentions | src/renderer/src/pages/home/Inputbar/MentionModelsButton.tsx:154 | the store shows the mention panel: visible with symbol `@`; the `ToggleStep` row states what the toggle does in each case |
| MentionModelsButton.ToggleStep | src/renderer/src/pages/home/Inputbar/MentionModelsButton.tsx:153-159 | the toggle closes a panel showing mentions (invoking its `onClose`) and otherwise opens the mention panel; the store stays well formed |
| MentionModelsButton.MentionPanelOptions | src/renderer/src/pages/home/Inputbar/MentionModelsButton.tsx:135-150 | the panel opens with the title, the model list, symbol `@`, `multiple` and `multipleRepeat` both true and the selection counter as `afterAction`; no other callback, trigger, default index or page size is given |
| MentionModelsButton.HandleOpenQuickPanel | src/renderer/src/pages/home/Inputbar/MentionModelsButton.tsx:153-159 | the new store state is `ToggleStep` of the old one |
| MentionModelsButton.ToggleOpensThenCloses | src/renderer/src/pages/home/Inputbar/MentionModelsButton.tsx:135-159 | from a panel not showing mentions, the toggle opens the `@` panel, multi-select and repeatable, with the counter and the given items; a second toggle hides it |
| MentionModelsInput.IndexOf | src/renderer/src/pages/home/Inputbar/MentionModelsInput.tsx:31 | the first position of a key, or the length when it is absent |
| MentionModelsInput.IdsAfterSelection | src/renderer/src/pages/home/Inputbar/MentionModelsInput.tsx:24-29 | a new id is appended to the group keys, and a known one leaves them as they were |
| MentionModelsInput.AddSelection | src/renderer/src/pages/home/Inputbar/MentionModelsInput.tsx:24-29 | one pass of the loop, on values: a selection of an id that has a group adds one to that group's count, otherwise a group with count one goes last (its properties are the `IdsAfterSelection`, `BumpKeepsCounts`, `NewGroupKeepsCounts` and `NewGroupComesLast` rows) |
| MentionModelsInput.Grouped | src/renderer/src/pages/home/Inputbar/MentionModelsInput.tsx:21-32 | the groups of the selections, built by `AddSelection` in selection order; what it means is proved in the `Grouped…` lemmas below |
| MentionModelsInput.CountSelections | src/renderer/src/pages/home/Inputbar/MentionModelsInput.tsx:21-29 | the loop leaves the record and its insertion order mirroring `Grouped` of the selections: the keys are the groups' ids in order, distinct, each mapped to its group |
| MentionModelsInput.BumpKeepsCounts | src/renderer/src/pages/home/Inputbar/MentionModelsInput.tsx:25-26 | a selection of an id that has a group keeps every group's count equal to the number of selections of its id |
| MentionModelsInput.NewGroupKeepsCounts | src/renderer/src/pages/home/Inputbar/MentionModelsInput.tsx:27-28 | a selection of a new id keeps every group's count equal to the number of selections of its id |
| MentionModelsInput.EarlierGroupStays | src/renderer/src/pages/home/Inputbar/MentionModelsInput.tsx:24-31 | one more selection keeps each earlier group's model in its place, and its id first occurs where it did, within the earlier selections |
| MentionModelsInput.NewGroupComesLast | src/renderer/src/pages/home/Inputbar/MentionModelsInput.tsx:27-31 | a selection that adds a group adds exactly one, last, with the selected model, and its id first occurs at that selection |
| MentionModelsInput.OrderExtends | src/renderer/src/pages/home/Inputbar/MentionModelsInput.tsx:31 | order by first occurrence carries over to one more group when the earlier groups keep their models and positions, all before the new group's |
| MentionModelsInput.AddSelectionKeepsFirstOrder | src/renderer/src/pages/home/Inputbar/MentionModelsInput.tsx:24-31 | one more selection keeps the groups in the order their ids were first selected |
| MentionModelsInput.GroupModels | src/renderer/src/pages/home/Inputbar/MentionModelsInput.tsx:21-32 | the record loop and `Object.values` give `Grouped` of the selection |
| MentionModelsInput.GroupedCoversSelection | src/renderer/src/pages/home/Inputbar/MentionModelsInput.tsx:21-32 | there is a group for exactly the ids that were selected |
| MentionModelsInput.GroupedSize | src/renderer/src/pages/home/Inputbar/MentionModelsInput.tsx:21-32 | there are at most as many groups as selections, and none exactly when nothing is selected |
| MentionModelsInput.GroupedDistinct | src/renderer/src/pages/home/Inputbar/MentionModelsInput.tsx:21-32 | no two groups share an id |
| MentionModelsInput.GroupedCounts | src/renderer/src/pages/home/Inputbar/MentionModelsInput.tsx:25-29 | each group's count is the number of times its id was selected |
| MentionModelsInput.GroupedTotal | src/renderer/src/pages/home/Inputbar/MentionModelsInput.tsx:21-32 | the counts add up to the number of selections |
| MentionModelsInput.GroupedShowsFirst | src/renderer/src/pages/home/Inputbar/MentionModelsInput.tsx:28 | each group shows the first selected model with its id |
| MentionModelsInput.GroupedInFirstSelectionOrder | src/renderer/src/pages/home/Inputbar/MentionModelsInput.tsx:31 | groups come in the order their ids were first selected |
| MentionModelsInput.FindProvider | src/renderer/src/pages/home/Inputbar/MentionModelsInput.tsx:17 | `find` succeeds exactly when some provider has the id, and returns the first such provider |
| MentionModelsInput.FirstWithId | src/renderer/src/pages/home/Inputbar/MentionModelsInput.tsx:17 | the position `find` stops at: a provider with the id, and none before it with that id |
| MentionModelsInput.ProviderNameOfKnownProvider | src/renderer/src/pages/home/Inputbar/MentionModelsInput.tsx:16-19 | a model's provider name is the display name of the first provider with its id |
| MentionModelsInput.ProviderNameOfUnknownProvider | src/renderer/src/pages/home/Inputbar/MentionModelsInput.tsx:16-19 | a model whose provider is not listed gets an empty name |
| Models.ProviderDisplayName | src/renderer/src/pages/home/Inputbar/MentionModelsInput.tsx:18 | a provider's display name: the translated `provider.<id>` key for a system provider, its own name otherwise; the `ProviderName` rows and `ModelItem`'s filter text use it |
| MentionModelsInput.ProviderName | src/renderer/src/pages/home/Inputbar/MentionModelsInput.tsx:16-19 | the name is empty when no provider has the model's provider id, and otherwise is the display name of the first one that has it |
| MentionModelsInput.TagText | src/renderer/src/pages/home/Inputbar/MentionModelsInput.tsx:43 | a tag starts with the model name and ends with the repeat suffix; for every count, what comes before the suffix is the name, the provider name in parentheses and a space; for a single selection that is the whole tag |
| MentionModelsInput.CountSuffix | src/renderer/src/pages/home/Inputbar/MentionModelsInput.tsx:43 | the suffix is empty exactly for a count of at most one; otherwise it is `x` followed by the count's decimal digits |
| MentionModelsInput.Decimal | src/renderer/src/pages/home/Inputbar/MentionModelsInput.tsx:43 | the decimal numeral of a count, as the template literal prints it; the `DecimalRoundTrip` row proves it reads back |
| MentionModelsInput.DecimalRoundTrip | src/renderer/src/pages/home/Inputbar/MentionModelsInput.tsx:43 | the decimal text of a count is digits without a leading zero, and reads back as the count |
| MentionModelsInput.CountSuffixShowsRepeats | src/renderer/src/pages/home/Inputbar/MentionModelsInput.tsx:43 | the suffix is empty exactly for a count of at most 1; otherwise it is `x` followed by the count in decimal |
| MentionModelsInput.TagsShowRepeats | src/renderer/src/pages/home/Inputbar/MentionModelsInput.tsx:36-43 | a tag shows a repeat suffix exactly when its model was selected more than once |
| MentionScenarios.ToggleGivesCountingPanel | src/renderer/src/pages/home/Inputbar/MentionModelsButton.tsx:135-159 | the toggle from a panel not showing mentions opens a counting panel |
| MentionScenarios.ShiftChoiceCountsUp | src/renderer/src/components/QuickPanel/view.tsx:167-212 | choosing a model row with Shift in the mention panel calls the row's action and then the counter, keeps the panel open, adds one to that row's count and changes no other row |

## Left out

- Rendering, styling, the footer and its width, tooltips and JSX labels are left out. Rich labels, descriptions and icons are an opaque `Element`.
- The pinned block's `sortBy(pinnedItems, ['label'])` compares React elements, which all convert to the same string, so lodash's stable sort keeps the flat-map order; `LeadEntries` is that order.
- lodash `sortBy` is modelled as a stable insertion sort by (group, name), using JavaScript's `<` on strings as lexicographic order on characters.
- MentionModelsButton.StrLess: compares characters as Unicode code points, while JavaScript's `<` compares UTF-16 code units. The two orders differ between a character above U+FFFF (an emoji, written as a surrogate pair) and one in U+E000 to U+FFFF (for example the fullwidth forms): JavaScript puts the astral character first, the model puts it last. Group and model names with both kinds of character may therefore sort differently.
- Strings are sequences of characters. UTF-16 surrogate pairs are not modelled: a character above U+FFFF is one element of a string, where JavaScript sees two code units. Locale case mapping and pinyin conversion are parameters of the model (`TextServices`), not modelled.
- The `.*` pattern is modelled as a non-regex match. The escaping of metacharacters is treated as exact, and the `i` and `g` flags are treated as no-ops on already lower-cased text.
- `clearSearchText` interpolates the ref into a regex without escaping it. The model treats the pattern as a literal suffix; a ref with metacharacters, or one that makes `RegExp` throw, is not modelled.
- The caret move after `clearSearchText` is modelled as immediate, though the source defers it with `setTimeout`; focus is not modelled.
- `useDeferredValue` is treated as immediate: `index` and `searchText` are the latest values.
- The scroll layout effect is modelled only as its trigger (`scroll`), not the scrolling itself.
- Handlers read the values of the last render, passed as a `Snapshot`; the `close` they call is that render's (`CloseWith` with the snapshot's configuration). The model does not track when React re-registers listeners, so a listener that survives more than one render is not modelled.
- `historyPanel.pop()` mutates the state array in place; the model treats it as a state update that removes the last entry.
- Item identity is an explicit id, where the source compares object references (`===` at provider.tsx:32-34 and 37-42). `updateItemSelection` replaces the matched item with a new object `{...item, isSelected}` (provider.tsx:33), and `updateItem` with whatever its updater returns. So in the source a second update through the old reference matches nothing, but in the model it applies again, since the new item keeps the id. Two distinct objects with the same id, or one object placed twice, are treated alike as well.
- Reopening a panel with the same list array still advances the list version in the model (`setList` with the same array does not re-run the memo in React).
- The unmount cleanups of the clear timer and of the listener effect are not modelled. Listener registration is modelled as "the store says the panel is shown"; only the search reset of the hide-time cleanup is modelled.
- `pointer-events` on rows is modelled as the `mouseOver` gate on clicks and hovers.
- `Object.values` is taken in insertion order. Integer-like keys, which JavaScript enumerates first, are not modelled.
- `onMentionModel`, `navigate` and `onRemoveModel` are host functions. The model records their invocation, not their effect.
- The pinned-model list and providers are inputs; the database query and the provider hook are not modelled.
- QuickPanelProvider.UpdateStep: carries no ensures of its own; `ItemLists.ReplaceIdentical` and `ItemLists.SelectionChangesOnlyIsSelected` state what it does to the list.
- MentionScenarios.ShiftChoiceCountsUp: states that the counted row is selected exactly when its count is non-zero, rather than positive, because a caller-supplied `selectionCount` may be negative.
- The documentation comment on `alwaysVisible` (types.ts:63-67) says such items are not filtered; the filter in view.tsx ignores the field, and the model follows the code (`QuickPanelSearch.AlwaysVisibleNotExempt`).

## Findings

| source | as written | input that shows it | evidently intended | confidence | as-written member | corrected member |
|---|---|---|---|---|---|---|
| src/renderer/src/components/QuickPanel/provider.tsx:71-79 | `close` overwrites `clearTimer.current` without cancelling the timer it held, so `open` cancels only the latest one (modelled by `ScheduleAsWritten` inside `CloseStep`, which the store runs) | `close()`, `close()`, then `open(options)` within 200 ms: the first timer fires and empties the newly opened panel's list, callbacks and title (`DoubleCloseClearsReopenedPanel`) | a close cancels any clear it had already scheduled, so no clear scheduled before an `open` runs after it (proved of `CorrectedCloseStep` by `CorrectedReopenStands`, and of `Schedule` by `OpenCancelsEveryClear`) | not executed | QuickPanelProvider.DoubleCloseClearsReopenedPanel | QuickPanelProvider.CorrectedCloseStep |
