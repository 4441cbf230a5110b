# Web-search toggle for the ChatGPT composer: a Dafny model

A browser extension that switches on ChatGPT's "Web search" mode has two parts:

- The **search toggle** (`utils/searchToggle.ts`) is a one-shot procedure, `enableWebSearch`:
  1. It checks for the search badge button in the composer toolbar.
  2. If the badge is missing, it clicks the composer's "+" button with synthetic pointer and mouse events.
  3. It waits up to two seconds for the `[role="menu"]` popover.
  4. It looks for the `menuitemradio` whose text names web search.
  5. It clicks that item, unless it is already checked. When it leaves the menu open without clicking, it closes it with an Escape key-down.
- The **composer watcher** (`utils/domObserver.ts`) has two pieces:
  - a mutation observer that runs a debounced callback (500 ms window) for every mutation batch in which the composer's "+" button is on the page;
  - `waitForComposer`, a mutation-or-timeout race for that button.

The model is split into modules:

- `Text` models `includes`, `toLowerCase` and `trim`.
- `Dom` models a page as a flat list of elements in document order, with `querySelector` and `querySelectorAll`.
  - Only two selector forms appear: a tag name, and an attribute equality.
  - Mutation batches and the passage of time form a trace of `PageEvent`s.
- `Wait` models the mutation-or-timeout race shared by `waitForElement` and `waitForComposer`.
  - It is a pure state machine (`WaitState`, `Run`, `Outcome`).
  - The class `ElementWait` holds the same state as fields, updated by the observer callback (`Mutation`) and by the clock (`Tick`).
- `SearchToggle` models the page queries, the click sequence and `enableWebSearch`.
  - `Page` is a class whose `dispatched` field logs every synthetic event in order.
  - `EnableWebSearch` is proved against `ExitOf`, which says which of the six exit points the procedure takes, and `DispatchedBy`, which says what it dispatches before that exit.
- `DomObserver` models the debounce timer and the composer observer.
  - `Debouncer` is a class whose one timer is a field.
  - `ComposerObserver` owns a `Debouncer` and a `connected` flag.
  - Both are proved against the pure `Trigger`, `Elapse`, `Observe` and `Run`.

The promise a wait returns becomes `settled` in the model:

- `None` while the promise is pending;
- `Some(Some(el))` once it has resolved with an element;
- `Some(None)` once it has resolved with `null`.

The first resolution wins, as with a JavaScript promise.

### Disposing of the composer observer does not cancel a pending callback

The handle `createComposerObserver` returns is meant to be disposed of to stop callback delivery. The code does not fully do that:

- `observer.disconnect()` stops new mutation batches from reaching the debounced function.
- It does not clear a debounce timer that is already armed (`utils/domObserver.ts:7-15`, `utils/domObserver.ts:51-64`).

A batch seen within 500 ms before disconnecting therefore still runs the callback once after disconnecting. The model keeps both halves:

- `Disconnected` and `ComposerObserver.Disconnect` model the code as written. `DisconnectLeavesPendingTimer` states what follows: after a disconnect, the callback runs at most once more, at the pending timer's deadline.
- `Disposed` and `ComposerObserver.Dispose` model the intended disposal, which also clears the timer. `DisposeStopsCallbacks` proves that no trace runs the callback afterwards.

`DisconnectStillFires` compares the two on one input (see "## Findings").

## Model

| member | source | states |
|---|---|---|
| Text.ContainsIgnoringAsciiCase | utils/searchToggle.ts:46-47 | `s.toLowerCase().includes(p)`, for a pattern without capitals, holds iff `p` occurs in `s` with each letter either as written or as its capital A-Z, a definition independent of the lower-casing function |
| Text.TrimStartCutsBlankPrefix | utils/searchToggle.ts:68 | `trim` removes a leading run made only of white-space and line-terminator characters, and the text it keeps starts with a character that is neither |
| Text.TrimEndCutsBlankSuffix | utils/searchToggle.ts:68 | the same at the end of the string: the removed suffix is all white space and the last kept character is not |
| Text.TrimKeepsInnerOccurrence | utils/searchToggle.ts:68-69 | a pattern that starts and ends with a non-white-space character occurs in the trimmed text iff it occurs in the untrimmed text |
| Dom.QuerySelectorFindsFirst | utils/searchToggle.ts:59 | `querySelector` returns `null` iff no element matches; otherwise it returns the first matching element in document order |
| Dom.Filter | utils/searchToggle.ts:41 | `querySelectorAll` returns exactly the matching elements: an element is in the result iff it is on the page and matches |
| Dom.FirstOfFilter | utils/searchToggle.ts:66-73 | the first element of `querySelectorAll(sel)` that passes a test is the first element on the page that matches `sel` and passes it |
| Wait.ElementWait.constructor | utils/searchToggle.ts:86-92 | an element already on the page resolves the promise at once, with no observer and no timer; otherwise the observer is connected and the timeout armed |
| Wait.ElementWait.Mutation | utils/searchToggle.ts:94-100 | a mutation batch that makes the selector match disconnects the observer and resolves with that element, unless the promise has already settled |
| Wait.ElementWait.Tick | utils/searchToggle.ts:104-107 | when the timeout falls due it disconnects the observer and resolves with `null`, unless the promise has already settled |
| Wait.RunKeepsConsistent | utils/searchToggle.ts:86-109 | the promise is pending exactly while the observer is connected, and a pending promise always has its timeout armed and not overdue |
| Wait.SettledStaysSettled | utils/searchToggle.ts:86-109 | once the promise has settled and the observer is disconnected, later batches and timer expiries change nothing |
| Wait.PresentResolvesImmediately | utils/searchToggle.ts:88-92 | when the element is already present, the outcome is that element, whatever the page does afterwards |
| Wait.QuietTraceOnlyMovesClock | utils/searchToggle.ts:94-102 | batches that do not make the selector match, before the deadline, only move the clock |
| Wait.FirstMatchingBatchWins | utils/searchToggle.ts:94-100 | the first matching batch before the deadline resolves the promise with the element it finds, and later events cannot change it |
| Wait.TimeoutResolvesNull | utils/searchToggle.ts:104-107 | if no batch ever makes the selector match and the clock reaches the deadline, the promise resolves with `null` |
| Wait.SettlesByDeadline | utils/searchToggle.ts:86-109 | the promise is never pending past its timeout, and it is never rejected |
| SearchToggle.IsSearchEnabled | utils/searchToggle.ts:40-53 | returns true iff some `button` on the page has an `aria-label` naming search ("検索", or "search" in any ASCII case) and removal ("削除", or "remove" in any ASCII case); a missing label counts as empty |
| SearchToggle.TokensIgnoreCase | utils/searchToggle.ts:45-48 | the label names search iff it holds "検索" or "search" in any mix of ASCII case, and names removal iff it holds "削除" or "remove" in any mix of ASCII case |
| SearchToggle.JapaneseBadgeLabel | utils/searchToggle.ts:44-48 | the Japanese badge label "検索：クリックして削除" is recognised |
| SearchToggle.EnglishBadgeLabel | utils/searchToggle.ts:44-48 | the English badge label "Search: Click to remove" is recognised, through lower-casing |
| SearchToggle.NonBadgeLabels | utils/searchToggle.ts:45-48 | the search token alone ("検索") is not the badge, and neither is "Send" |
| SearchToggle.PlusButtonLookup | utils/searchToggle.ts:58-60 | `findPlusButton` returns a page element whose `data-testid` is `composer-plus-btn`, and returns `null` iff no element carries that test id |
| SearchToggle.FindWebSearchMenuItem | utils/searchToggle.ts:65-74 | returns the first `menuitemradio` whose trimmed text contains one of the three web-search keywords, or `null` when there is none |
| SearchToggle.WebSearchItemIsFirstInDocument | utils/searchToggle.ts:65-74 | the item found is a page element with role `menuitemradio` and a keyword, no earlier element is one, and the result is `null` iff no element on the page is one |
| SearchToggle.KeywordMatchIgnoresTrim | utils/searchToggle.ts:68-69 | a keyword occurs in the trimmed text content iff it occurs in the untrimmed text |
| SearchToggle.MenuItemCheckedCases | utils/searchToggle.ts:79-81 | an item is checked when `aria-checked` is exactly "true"; "false", another spelling such as "TRUE", and a missing attribute all read as unchecked |
| SearchToggle.ClickSequence | utils/searchToggle.ts:8-34 | a simulated click is exactly pointerdown, pointerup, click, in that order, all on the element, all bubbling and cancelable |
| SearchToggle.Page.SimulateClick | utils/searchToggle.ts:8-34 | dispatching a simulated click appends exactly those three events to the page's event log |
| SearchToggle.Page.PressEscape | utils/searchToggle.ts:135 | appends one Escape key-down on the document, bubbling and not cancelable |
| SearchToggle.MenuAppearsInTime | utils/searchToggle.ts:127 | the menu wait delivers the `[role="menu"]` element when it shows up less than two seconds after the wait starts |
| SearchToggle.MenuGivenUpAfterTimeout | utils/searchToggle.ts:127-130 | a menu that has not shown up after two seconds makes the wait deliver `null` |
| SearchToggle.Page.EnableWebSearch | utils/searchToggle.ts:115-147 | returns `Succeeds(ExitOf(..))` and appends exactly `DispatchedBy(..)` to the event log, taking the branches in the source's order |
| SearchToggle.AlreadyEnabledDispatchesNothing | utils/searchToggle.ts:116-118 | when the search badge is present the procedure returns true and dispatches nothing |
| SearchToggle.FailurePaths | utils/searchToggle.ts:120-137 | false is returned only in three cases. With no "+" button nothing is dispatched. With no menu, only the "+" click is dispatched. With no web-search item, the "+" click is followed by one Escape |
| SearchToggle.SucceedsIff | utils/searchToggle.ts:115-147 | returns true iff the badge was present, or the "+" button existed, the menu appeared and it held the web-search item |
| SearchToggle.EscapeIffMenuLeftOpen | utils/searchToggle.ts:132-143 | Escape is dispatched iff the menu was opened and the item was missing or already checked; then it is the last event and is sent once |
| SearchToggle.ItemClickedOnlyWhenUnchecked | utils/searchToggle.ts:139-146 | the item is clicked iff the menu was opened and the item was unchecked; an already checked item receives no event |
| DomObserver.Debouncer.constructor | utils/domObserver.ts:7-8 | a fresh debounced function has no pending timer and has not run the callback yet |
| DomObserver.Debouncer.Call | utils/domObserver.ts:9-14 | calling the debounced function replaces any pending timer with one due `delay` from now |
| DomObserver.Debouncer.Tick | utils/domObserver.ts:13 | when the clock passes the pending deadline the callback runs once, at that deadline, and no timer is left |
| DomObserver.ComposerObserver.constructor | utils/domObserver.ts:51-63 | a new observer is connected, with a 500 ms debouncer of its own that is idle |
| DomObserver.ComposerObserver.Mutation | utils/domObserver.ts:54-59 | a batch triggers the debounced callback iff the observer is connected and the composer "+" button is on the page |
| DomObserver.ComposerObserver.Tick | utils/domObserver.ts:13 | the clock moving on only advances the debounce timer |
| DomObserver.ComposerObserver.Disconnect | utils/domObserver.ts:51-64 | disconnecting only clears the `connected` flag, and repeating it changes nothing |
| DomObserver.BurstFiresOnce | utils/domObserver.ts:7-15 | a burst of batches, each showing the composer (on pages that may differ) and each less than a window after the previous one, runs the callback exactly once, a window after the last batch, and not before |
| DomObserver.WindowElapses | utils/domObserver.ts:13 | a timer due one window from now runs the callback at that instant once the clock moves on by the window, and leaves no timer |
| DomObserver.RetriggersPostpone | utils/domObserver.ts:9-14 | each re-trigger within the window only pushes the deadline on to a window after itself |
| DomObserver.CallbacksStaySpaced | utils/domObserver.ts:7-15 | any trace keeps the callback runs at least a window apart, never in the future, and the pending timer within one window of now |
| DomObserver.AbsentComposerNeverSchedules | utils/domObserver.ts:55-58 | batches without the composer button never arm the timer nor run the callback |
| DomObserver.DisconnectLeavesPendingTimer | utils/domObserver.ts:51-64 | after disconnecting no batch triggers the callback, but a timer armed before is kept and runs the callback once if the clock reaches it |
| DomObserver.Debouncer.Cancel | utils/domObserver.ts:10-12 | `clearTimeout` on the pending timer: the timer is gone and nothing else changes |
| DomObserver.ComposerObserver.Dispose | utils/domObserver.ts:51-64 | the intended disposal: the observer is disconnected and its pending debounce timer is cleared |
| DomObserver.DisposeStopsCallbacks | utils/domObserver.ts:51-64 | after the intended disposal, no trace of batches and clock movement runs the callback again or arms a timer |
| DomObserver.DisconnectStillFires | utils/domObserver.ts:51-64 | a composer batch at 0 ms, a disconnect at 100 ms and 400 ms more run the callback at 500 ms as written, and never with the intended disposal |
| DomObserver.ComposerAppearsInTime | utils/domObserver.ts:29-35 | `waitForComposer` delivers the composer button from the first batch that shows it before the timeout |
| DomObserver.ComposerGivenUpAfterTimeout | utils/domObserver.ts:39-42 | with the default ten-second timeout, a composer that has not appeared by then makes the wait deliver `null` |

## Left out

- Real asynchrony is not modelled: no promises, no `MutationObserver`, no `setTimeout` scheduler. Time is a trace of `Advance(ms)` events and page changes are a trace of `MutationBatch(doc)` events. Microtask ordering between a batch and a timer due at the same instant is not modelled. In a single `Advance`, the model fires a due timer at its deadline.
- SearchToggle.Page.EnableWebSearch takes the result of the menu wait as an input (`MenuWait`): the element or `null`, and the page as it was once the wait had settled. What the host page renders after the "+" click is outside the extension. `MenuAppearsInTime` and `MenuGivenUpAfterTimeout` connect that input to the `Wait` race.
- SearchToggle.ClickSequence does not keep the click coordinates, which come from `getBoundingClientRect` and the page layout. It does not keep `pointerId`, `pointerType` or `view` either.
- Text.AsciiLower lower-cases only A-Z. Unicode `toLowerCase` also maps other capitals, but none of them lower-cases to a letter of "search" or "remove": U+0130 gives "i̇" and U+212A gives "k". So the badge test gives the same answer on every label.
- Characters are modelled as Dafny `char` values (Unicode scalar values), not UTF-16 code units. Every literal in the source lies in the Basic Multilingual Plane.
- `textContent` is modelled as a `text` field on each element. The DOM tree, and the text of descendants that `textContent` concatenates, are not modelled: the page is a flat list in document order.
- Only the two selector forms the source uses are modelled: `button`, and `[attr="value"]`. There is no general CSS selector engine.
- How the host page reacts to the synthetic events is not modelled: opening the menu, updating `aria-checked`, closing the menu on Escape.
- `entrypoints/content.ts` is not part of this model: it only wires these functions into the extension's lifecycle.

## Findings

| source | as written | input that shows it | evidently intended | confidence | as-written member | corrected member |
|---|---|---|---|---|---|---|
| utils/domObserver.ts:51-64 | disposing of the composer observer calls only `disconnect()`, which leaves the debounce timer from utils/domObserver.ts:13 armed | a batch with the composer at 0 ms, `disconnect()` at 100 ms, then 400 ms: the callback runs at 500 ms, after disposal | disposal also clears the pending debounce timer, so no callback runs after it | medium, not executed | DomObserver.DisconnectStillFires | DomObserver.DisposeStopsCallbacks |
