# Minimal Dashboard launcher: verified model of its selection and bubble logic

Minimal Dashboard is an Android home-screen launcher. It lists the installed apps with their
usage statistics, filters them by a search query, shows a horizontal tray of the apps below
the visible rows, and runs a floating "bubble" overlay that can be dragged around and tapped
to bring the launcher back. This project models the logic inside that UI glue and proves
what it does:

- `AppList` (`app_list.dfy`, from `MainActivity.kt`):
  - matching an app to its usage record (`getUsageStatForThePackage`);
  - the "undiscovered" tray slice;
  - the case-sensitive `filteredList` and the case-insensitive filter applied when rendering;
  - the choice of column list;
  - the scroll-direction detector `isScrollingUp`;
  - the screen-time figure in minutes.
- `Bubble` (`bubble.dfy`, from `bubbles/ControllerService.kt`):
  - the touch listener's DOWN/MOVE/UP state machine over `params.x/y`, `isExpanded` and the remembered touch-down point;
  - `DraggableComponent`'s accumulated offset.
- `KotlinText` (`kotlin_text.dfy`): the parts of the Kotlin string library the search uses: `contains`, `contains(ignoreCase = true)` and `isBlank`.
- `KotlinInt` (`kotlin_int.dfy`): Kotlin `Int` wrap-around, `Float.toInt()` saturation and JVM `long` division truncating toward zero.
- `Wrappers` (`wrappers.dfy`): `Option` for Kotlin's nullable values.

Platform objects become plain values:
- A `ResolveInfo` is an `App` holding its package name and label.
- A `UsageStats` is a record holding its package name, visible time and last time stamp.
- A `MotionEvent` is an action code with integer raw coordinates.
- The window manager's `updateViewLayout` and the `startActivity` call are recorded as `Effect`s, in order, in the listener's `effects` field.

Behaviour of the code as written that the proofs make explicit:
- `filteredList` is `remember { ... }` with no key. It is therefore computed once, while the query is still `""`, and equals the full list. The column list is thus always the full list (`ColumnListIsFullList`), and only the case-insensitive render-time filter narrows what is shown (`SearchShowsMatchingApps`).
- On an empty app list, `lastIndex` is `-1`, so the tray calls `subList(-1, -1)`, which throws `IndexOutOfBoundsException`. The model returns that error (`UndiscoveredListShape`).
- The tray never contains the last app: the slice ends at `lastIndex`, which is exclusive.
- The tap test on ACTION_UP compares signed displacements with 10. A drag of any length up and to the left therefore still launches the main activity (`UpLeftDragLaunches`).
- ACTION_MOVE places the bubble at the touch-down position plus the current displacement. A run of moves therefore does not accumulate (`DragEndsAtLastMove`).

## Model

| member | source | states |
|---|---|---|
| `KotlinText.ContainsIsOccurrence` | app/src/main/java/com/ysanjeet535/minimaldashboard/MainActivity.kt:455 | `contains` holds exactly when some index of the text starts an exact copy of the other string |
| `KotlinText.ContainsIgnoreCaseIsOccurrence` | app/src/main/java/com/ysanjeet535/minimaldashboard/MainActivity.kt:227 | `contains(ignoreCase = true)` holds exactly when the query occurs at some index with every character equal ignoring case |
| `KotlinText.ContainsIgnoreCaseIsUppercasedContains` | app/src/main/java/com/ysanjeet535/minimaldashboard/MainActivity.kt:227 | the case-insensitive search agrees with a case-sensitive search of the upper-cased texts |
| `KotlinText.ContainsImpliesContainsIgnoreCase` | app/src/main/java/com/ysanjeet535/minimaldashboard/MainActivity.kt:164-166 | a label matched by the case-sensitive filter is also matched by the case-insensitive one |
| `KotlinInt.Wrap32` | app/src/main/java/com/ysanjeet535/minimaldashboard/bubbles/ControllerService.kt:160-161 | `Int` addition yields the value in the `Int` range congruent to the exact sum modulo 2^32, and the exact sum when it fits |
| `KotlinInt.WrapAddLeft` | app/src/main/java/com/ysanjeet535/minimaldashboard/bubbles/ControllerService.kt:213 | wrapping a running total before adding the next term gives the same result as wrapping once at the end |
| `KotlinInt.SaturateToInt` | app/src/main/java/com/ysanjeet535/minimaldashboard/bubbles/ControllerService.kt:147-148 | `toInt()` keeps a value in the `Int` range and clamps values outside it to `Int.MIN_VALUE`/`Int.MAX_VALUE` |
| `KotlinInt.TruncDiv` | app/src/main/java/com/ysanjeet535/minimaldashboard/MainActivity.kt:428 | the quotient is rounded toward zero: bounds from below for non-negative dividends, from above for negative ones |
| `AppList.LastUsageOfIsLastMatch` | app/src/main/java/com/ysanjeet535/minimaldashboard/MainActivity.kt:449-459 | none exactly when no record's package name occurs in the app's; otherwise a matching element of the list after which no record matches (the last match) |
| `AppList.UsageStatForPackage` | app/src/main/java/com/ysanjeet535/minimaldashboard/MainActivity.kt:449-459 | the scan returns null for null stats, and otherwise the last matching record as `LastUsageOfIsLastMatch` characterises it |
| `AppList.UndiscoveredStart` | app/src/main/java/com/ysanjeet535/minimaldashboard/MainActivity.kt:154-155 | the start index is the minimum of `firstVisibleItemIndex + 9` and `lastIndex`: at most both, and equal to one of them |
| `AppList.SubListOf` | app/src/main/java/com/ysanjeet535/minimaldashboard/MainActivity.kt:156 | `subList` throws `IndexOutOfBoundsException` exactly when `fromIndex < 0` or `toIndex > size`; otherwise `IllegalArgumentException` exactly when `fromIndex > toIndex`; and otherwise returns `toIndex - fromIndex` elements starting at `fromIndex` |
| `AppList.UndiscoveredListShape` | app/src/main/java/com/ysanjeet535/minimaldashboard/MainActivity.kt:152-158 | the tray throws `IndexOutOfBoundsException` exactly on an empty list and never the out-of-order exception; otherwise it is the contiguous run from the start index up to `lastIndex`, with length `lastIndex - start`, never holding the last app, and non-empty exactly when `firstVisibleItemIndex + 9 < lastIndex` |
| `AppList.Filter` | app/src/main/java/com/ysanjeet535/minimaldashboard/MainActivity.kt:164-166 | `filter` keeps exactly the elements satisfying the predicate, each as many times as it occurs in the input, in their original order |
| `AppList.FilterKeepsAll` | app/src/main/java/com/ysanjeet535/minimaldashboard/MainActivity.kt:226-228 | `filter` with a predicate true of every element returns the list unchanged |
| `AppList.FilteredList` | app/src/main/java/com/ysanjeet535/minimaldashboard/MainActivity.kt:163-167 | the remembered list holds exactly the apps whose label contains the first-composition query case-sensitively, with their multiplicities, in list order |
| `KotlinText.BlankQueries` | app/src/main/java/com/ysanjeet535/minimaldashboard/MainActivity.kt:171 | `isBlank` holds of the empty query and of whitespace-only queries, is kept by concatenation, and fails as soon as one character is not whitespace |
| `AppList.AppColumnList` | app/src/main/java/com/ysanjeet535/minimaldashboard/MainActivity.kt:169-173 | the column shows one of the two lists: the filtered list exactly when the query is not blank, the full list otherwise |
| `AppList.RenderedRows` | app/src/main/java/com/ysanjeet535/minimaldashboard/MainActivity.kt:226-228 | the rendered rows are exactly the apps whose label contains the query ignoring case, with their multiplicities, in their original order |
| `AppList.EmptyQueryRendersAll` | app/src/main/java/com/ysanjeet535/minimaldashboard/MainActivity.kt:226-228 | an empty query renders every app, in order |
| `AppList.ColumnListIsFullList` | app/src/main/java/com/ysanjeet535/minimaldashboard/MainActivity.kt:159-173 | since `filteredList` is computed once with the initial empty query, the column list is the full list whatever is typed |
| `AppList.SearchShowsMatchingApps` | app/src/main/java/com/ysanjeet535/minimaldashboard/MainActivity.kt:163-228 | for any typed query, the shown rows are exactly the apps whose label contains it ignoring case, with their multiplicities, in list order |
| `AppList.ScrollingUp` | app/src/main/java/com/ysanjeet535/minimaldashboard/MainActivity.kt:478-482 | "scrolling up" holds iff the new position (first row, offset) is lexicographically not after the remembered one |
| `AppList.ScrollDirection.constructor` | app/src/main/java/com/ysanjeet535/minimaldashboard/MainActivity.kt:474-475 | the remembered index and offset start at the list's current position |
| `AppList.ScrollDirection.IsScrollingUp` | app/src/main/java/com/ysanjeet535/minimaldashboard/MainActivity.kt:476-487 | returns the comparison with the remembered position, then remembers the current one |
| `AppList.ScrollingUpTwice` | app/src/main/java/com/ysanjeet535/minimaldashboard/MainActivity.kt:478-485 | the first evaluation compares with the remembered position; a second one at the same position always reports scrolling up |
| `AppList.ScreenTimeMinutes` | app/src/main/java/com/ysanjeet535/minimaldashboard/MainActivity.kt:428-429 | screen time is 0 without a record, otherwise the visible milliseconds divided by 60000, rounded toward zero |
| `Bubble.InitialListener` | app/src/main/java/com/ysanjeet535/minimaldashboard/bubbles/ControllerService.kt:83-132 | the bubble starts at x = 0, y = 100, collapsed, with the listener's remembered positions all at zero |
| `Bubble.React` | app/src/main/java/com/ysanjeet535/minimaldashboard/bubbles/ControllerService.kt:133-168 | handled exactly for DOWN, UP and MOVE; unhandled events change nothing; only MOVE moves the bubble; only DOWN flips `isExpanded`; the main activity is launched exactly on UP with both signed displacements below 10; UP requests only that launch, at most once, and every MOVE requests exactly one layout update at the new position |
| `Bubble.DownRecordsStart` | app/src/main/java/com/ysanjeet535/minimaldashboard/bubbles/ControllerService.kt:137-144 | DOWN flips `isExpanded`, records the bubble and finger positions, keeps the bubble still, requests nothing, returns true |
| `Bubble.DownTwiceRestoresExpansion` | app/src/main/java/com/ysanjeet535/minimaldashboard/bubbles/ControllerService.kt:138 | two DOWN events restore `isExpanded` |
| `Bubble.MoveFollowsFinger` | app/src/main/java/com/ysanjeet535/minimaldashboard/bubbles/ControllerService.kt:158-165 | without overflow, MOVE puts the bubble at the touch-down position plus the finger's displacement and requests one layout update there |
| `Bubble.MoveBackRestoresPosition` | app/src/main/java/com/ysanjeet535/minimaldashboard/bubbles/ControllerService.kt:137-165 | a MOVE back to the touch-down point puts the bubble where it was at touch-down |
| `Bubble.UpKeepsPosition` | app/src/main/java/com/ysanjeet535/minimaldashboard/bubbles/ControllerService.kt:146-156 | UP changes no state and returns true |
| `Bubble.UpLeftDragLaunches` | app/src/main/java/com/ysanjeet535/minimaldashboard/bubbles/ControllerService.kt:147-154 | with signed displacements, an UP at or up-left of the touch-down point launches the main activity however far the drag went |
| `Bubble.OtherEventsIgnored` | app/src/main/java/com/ysanjeet535/minimaldashboard/bubbles/ControllerService.kt:136-167 | a null event or any other action returns false and changes nothing |
| `Bubble.DragEndsAtLastMove` | app/src/main/java/com/ysanjeet535/minimaldashboard/bubbles/ControllerService.kt:158-165 | after any run of MOVE events the bubble sits at the touch-down position plus the last displacement; the touch-down record and `isExpanded` are unchanged |
| `Bubble.TouchListener.constructor` | app/src/main/java/com/ysanjeet535/minimaldashboard/bubbles/ControllerService.kt:83-132 | the listener starts in the initial state with no platform calls made |
| `Bubble.TouchListener.OnTouch` | app/src/main/java/com/ysanjeet535/minimaldashboard/bubbles/ControllerService.kt:133-168 | the fields become `React`'s next state, the return value is `React`'s, and `React`'s effects are appended to the recorded ones |
| `Bubble.TapFreshBubble` | app/src/main/java/com/ysanjeet535/minimaldashboard/bubbles/ControllerService.kt:137-156 | DOWN then UP at one point on a fresh bubble expands it, leaves it at (0, 100) and launches the main activity exactly once |
| `Bubble.Plus` | app/src/main/java/com/ysanjeet535/minimaldashboard/bubbles/ControllerService.kt:213 | `IntOffset.plus` adds component-wise: the exact sums when they fit in `Int`, otherwise values congruent to them modulo 2^32 |
| `Bubble.AccumulateIsSum` | app/src/main/java/com/ysanjeet535/minimaldashboard/bubbles/ControllerService.kt:203-213 | starting from zero, the offset after drags d1..dn is the component-wise sum of the drags, wrapped to `Int` |
| `Bubble.DraggableComponent.constructor` | app/src/main/java/com/ysanjeet535/minimaldashboard/bubbles/ControllerService.kt:203 | the offset starts at `IntOffset.Zero` with no drags recorded |
| `Bubble.DraggableComponent.OnDrag` | app/src/main/java/com/ysanjeet535/minimaldashboard/bubbles/ControllerService.kt:209-214 | each drag adds its rounded amount to the offset, and the offset stays the wrapped sum of all drags so far |

## Left out

- Compose rendering, layout, animation, `LaunchedEffect`/`animateScrollToItem` and the tray's use of `isScrollingUp`: these are UI framework calls with no state of their own to model.
- `fetchUsageStats`, `checkForPermission`, the package-manager queries and `onCreate` of the activity: these are platform calls. Their results (the app list, the usage records or null) are inputs of the model.
- The window manager's `addView`/`removeView`, the notification channel, `startForeground`, and the lifecycle, recomposer and coroutine setup: these are platform I/O. `updateViewLayout` and `startActivity` are only recorded as effects.
- Float arithmetic: `rawX`/`rawY`, `initialTouchX`/`initialTouchY` and drag amounts are whole numbers already. The float subtraction is modelled as exact, and `roundToInt` is taken as done by the caller.
- The "Last Used" line (MainActivity.kt:433): it reads the wall clock, and its `!!` crashes when there is no record.
- `Log.d("move", "on touch called")` on every touch (ControllerService.kt:134) and `change.consume()` on every drag (ControllerService.kt:210): platform effects that are not recorded among the effects.
- The `Build.VERSION.SDK_INT` guard around the metadata: an OS-version check, not logic.
- KotlinText.ContainsIgnoreCase: case mapping covers the ASCII letters only. Kotlin's Unicode `uppercaseChar`/`lowercaseChar` tables are not modelled.
- The recompositions that re-evaluate `undiscoveredList`, `appColumnList` and `isScrollingUp` are not modelled as a scheduler. Each function models one evaluation, for the state it is given.
