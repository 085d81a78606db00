/**
 * The selection logic of the launcher's app list (MainActivity.kt): which usage
 * record belongs to an app, the "undiscovered" tray below the visible rows, the
 * search filters, the list the column shows, the scroll-direction detector and
 * the screen-time figure. Package-manager and usage-stats queries are inputs.
 */
module AppList {
  import opened Wrappers
  import opened KotlinText
  import opened KotlinInt

  /** What the launcher reads from a `ResolveInfo`: `activityInfo.packageName` and `loadLabel(...)`. */
  datatype App = App(packageName: string, appName: string)

  /** A `UsageStats` record: its package, `totalTimeVisible` and `lastTimeStamp`, in milliseconds. */
  datatype UsageStats = UsageStats(packageName: string, totalTimeVisible: int, lastTimeStamp: int)

  // ---------------------------------------------------------------------------
  // Usage record of an app
  // ---------------------------------------------------------------------------

  /** A record belongs to an app when the record's package name occurs in the app's. */
  predicate IsUsageOf(item: App, stat: UsageStats)
  {
    Contains(item.packageName, stat.packageName)
  }

  /** The last record of `stats`, in list order, that belongs to `item`. */
  function LastUsageOf(item: App, stats: seq<UsageStats>): Option<UsageStats>
    decreases |stats|
  {
    if stats == [] then None
    else if IsUsageOf(item, stats[|stats| - 1]) then Some(stats[|stats| - 1])
    else LastUsageOf(item, stats[..|stats| - 1])
  }

  /**
   * `LastUsageOf` is empty exactly when no record belongs to the app; otherwise it
   * is a record of the list that belongs to the app and after which none does.
   */
  lemma {:induction false} LastUsageOfIsLastMatch(item: App, stats: seq<UsageStats>)
    ensures LastUsageOf(item, stats).None? <==> forall k :: 0 <= k < |stats| ==> !IsUsageOf(item, stats[k])
    ensures LastUsageOf(item, stats).Some? ==>
      exists k :: 0 <= k < |stats| && stats[k] == LastUsageOf(item, stats).value && IsUsageOf(item, stats[k])
        && forall j :: k < j < |stats| ==> !IsUsageOf(item, stats[j])
    decreases |stats|
  {
    if stats != [] {
      var n := |stats| - 1;
      if IsUsageOf(item, stats[n]) {
        assert LastUsageOf(item, stats) == Some(stats[n]);
      } else {
        var front := stats[..n];
        LastUsageOfIsLastMatch(item, front);
        assert LastUsageOf(item, stats) == LastUsageOf(item, front);
        assert forall j :: 0 <= j < n ==> front[j] == stats[j];
        if LastUsageOf(item, front).Some? {
          var k :| 0 <= k < n && front[k] == LastUsageOf(item, front).value && IsUsageOf(item, front[k])
            && forall j :: k < j < n ==> !IsUsageOf(item, front[j]);
          assert stats[k] == LastUsageOf(item, stats).value && IsUsageOf(item, stats[k]);
        }
      }
    }
  }

  /**
   * `getUsageStatForThePackage`: scans every record and keeps the last one that
   * belongs to `item`; no records at all (`null`) gives no result.
   */
  method UsageStatForPackage(item: App, usageStats: Option<seq<UsageStats>>) returns (value: Option<UsageStats>)
    ensures usageStats.None? ==> value == None
    ensures usageStats.Some? ==> value == LastUsageOf(item, usageStats.value)
  {
    value := None;
    if usageStats.Some? {
      var stats := usageStats.value;
      var i := 0;
      while i < |stats|
        invariant 0 <= i <= |stats|
        invariant value == LastUsageOf(item, stats[..i])
      {
        assert stats[..i + 1][..i] == stats[..i];
        if Contains(item.packageName, stats[i].packageName) {
          value := Some(stats[i]);
        }
        i := i + 1;
      }
      assert stats[..i] == stats;
    }
  }

  // ---------------------------------------------------------------------------
  // The "undiscovered" tray
  // ---------------------------------------------------------------------------

  /** How many rows past the first visible row the tray starts. */
  const TRAY_LOOKAHEAD: int := 9

  /** Kotlin's `List.lastIndex`: `-1` for an empty list. */
  function LastIndex<T>(list: seq<T>): int
  {
    |list| - 1
  }

  /** The tray's start index: `firstVisibleItemIndex + 9`, capped at `lastIndex`. */
  function UndiscoveredStart(firstVisibleItemIndex: nat, lastIndex: int): (start: int)
    ensures start <= lastIndex
    ensures start == firstVisibleItemIndex + TRAY_LOOKAHEAD || start == lastIndex
    ensures start <= firstVisibleItemIndex + TRAY_LOOKAHEAD
  {
    if firstVisibleItemIndex + TRAY_LOOKAHEAD <= lastIndex then firstVisibleItemIndex + TRAY_LOOKAHEAD else lastIndex
  }

  /**
   * The outcome of `List.subList`: the view, or the exception it throws, an
   * `IndexOutOfBoundsException` exactly when `fromIndex < 0` or `toIndex > size`,
   * otherwise an `IllegalArgumentException` exactly when `fromIndex > toIndex`.
   */
  datatype SubList<T> =
    | SubList(items: seq<T>)
    | IndexOutOfBounds(fromIndex: int, toIndex: int)
    | IllegalArgument(fromIndex: int, toIndex: int)

  /** `List.subList(fromIndex, toIndex)`. */
  function SubListOf<T>(list: seq<T>, fromIndex: int, toIndex: int): (r: SubList<T>)
    ensures r.SubList? <==> 0 <= fromIndex <= toIndex <= |list|
    ensures r.IndexOutOfBounds? <==> fromIndex < 0 || toIndex > |list|
    ensures r.IllegalArgument? <==> 0 <= fromIndex && toIndex <= |list| && fromIndex > toIndex
    ensures r.SubList? ==> |r.items| == toIndex - fromIndex
    ensures r.SubList? ==> forall k :: 0 <= k < |r.items| ==> r.items[k] == list[fromIndex + k]
  {
    if fromIndex < 0 || toIndex > |list| then IndexOutOfBounds(fromIndex, toIndex)
    else if fromIndex > toIndex then IllegalArgument(fromIndex, toIndex)
    else SubList(list[fromIndex..toIndex])
  }

  /** `undiscoveredList`: `list.subList(startIndex, list.lastIndex)`. */
  function UndiscoveredList(list: seq<App>, firstVisibleItemIndex: nat): (r: SubList<App>)
  {
    var lastIndex := LastIndex(list);
    SubListOf(list, UndiscoveredStart(firstVisibleItemIndex, lastIndex), lastIndex)
  }

  /**
   * The tray fails only on an empty app list (`subList(-1, -1)`); otherwise it is
   * the run of apps from the start index up to, and never including, the last app,
   * and it is non-empty exactly when at least ten apps follow the first visible row.
   */
  lemma UndiscoveredListShape(list: seq<App>, firstVisibleItemIndex: nat)
    ensures UndiscoveredList(list, firstVisibleItemIndex).IndexOutOfBounds? <==> list == []
    ensures !UndiscoveredList(list, firstVisibleItemIndex).IllegalArgument?
    ensures list != [] ==>
      var r := UndiscoveredList(list, firstVisibleItemIndex);
      var start := UndiscoveredStart(firstVisibleItemIndex, LastIndex(list));
      && 0 <= start <= LastIndex(list)
      && |r.items| == LastIndex(list) - start
      && (forall k :: 0 <= k < |r.items| ==> r.items[k] == list[start + k] && start + k < LastIndex(list))
      && (r.items != [] <==> firstVisibleItemIndex + TRAY_LOOKAHEAD < LastIndex(list))
  {
  }

  // ---------------------------------------------------------------------------
  // Search
  // ---------------------------------------------------------------------------

  /** `a` is `b` with some elements deleted, in the same order. */
  ghost predicate SubsequenceOf<T>(a: seq<T>, b: seq<T>)
    decreases |b|
  {
    if b == [] then a == []
    else (a != [] && a[0] == b[0] && SubsequenceOf(a[1..], b[1..])) || SubsequenceOf(a, b[1..])
  }

  /** Kotlin's `List.filter`: the elements that satisfy `keep`, in order. */
  function Filter<T(!new)>(list: seq<T>, keep: T -> bool): (r: seq<T>)
    ensures SubsequenceOf(r, list)
    ensures forall x :: x in r <==> x in list && keep(x)
    ensures forall x :: multiset(r)[x] == if keep(x) then multiset(list)[x] else 0
    decreases |list|
  {
    if list == [] then []
    else
      assert list == [list[0]] + list[1..];
      if keep(list[0]) then [list[0]] + Filter(list[1..], keep)
      else Filter(list[1..], keep)
  }

  /** When every element is kept, `filter` returns the list unchanged. */
  lemma {:induction false} FilterKeepsAll<T(!new)>(list: seq<T>, keep: T -> bool)
    requires forall x :: x in list ==> keep(x)
    ensures Filter(list, keep) == list
    decreases |list|
  {
    if list != [] {
      FilterKeepsAll(list[1..], keep);
    }
  }

  /** `filteredList`'s predicate: the label contains the query, case-sensitively. */
  function LabelContains(query: string): App -> bool
  {
    (app: App) => Contains(app.appName, query)
  }

  /** The column's render-time predicate: the label contains the query, ignoring case. */
  function LabelContainsIgnoreCase(query: string): App -> bool
  {
    (app: App) => ContainsIgnoreCase(app.appName, query)
  }

  /** The query text when `AppListContent` is first composed: `TextFieldValue("")`. */
  const INITIAL_QUERY: string := ""

  /**
   * `filteredList`: `remember { list.filter { ... contains(query.text) } }` has no
   * key, so it is evaluated once, with the query as it is at first composition.
   */
  function FilteredList(list: seq<App>, queryAtFirstComposition: string): (r: seq<App>)
    ensures forall a :: a in r <==> a in list && Contains(a.appName, queryAtFirstComposition)
    ensures forall a :: multiset(r)[a] == if Contains(a.appName, queryAtFirstComposition) then multiset(list)[a] else 0
    ensures SubsequenceOf(r, list)
  {
    Filter(list, LabelContains(queryAtFirstComposition))
  }

  /** `appColumnList`: the filtered list while the query is not blank, else the full list. */
  function AppColumnList(list: seq<App>, filteredList: seq<App>, queryText: string): (r: seq<App>)
    ensures r == list || r == filteredList
    ensures !IsBlank(queryText) ==> r == filteredList
    ensures IsBlank(queryText) ==> r == list
  {
    if !IsBlank(queryText) then filteredList else list
  }

  /** The rows `MainAppColumn` renders: `appList.filter { label.contains(filterQuery, ignoreCase = true) }`. */
  function RenderedRows(appList: seq<App>, filterQuery: string): (r: seq<App>)
    ensures forall a :: a in r <==> a in appList && ContainsIgnoreCase(a.appName, filterQuery)
    ensures forall a :: multiset(r)[a] == if ContainsIgnoreCase(a.appName, filterQuery) then multiset(appList)[a] else 0
    ensures SubsequenceOf(r, appList)
  {
    Filter(appList, LabelContainsIgnoreCase(filterQuery))
  }

  /** An empty filter query renders every app, in order. */
  lemma {:induction false} EmptyQueryRendersAll(appList: seq<App>)
    ensures RenderedRows(appList, "") == appList
  {
    forall a | a in appList ensures LabelContainsIgnoreCase("")(a) {
      ContainsEmpty(a.appName);
    }
    FilterKeepsAll(appList, LabelContainsIgnoreCase(""));
  }

  /**
   * Because `filteredList` was computed once with the empty initial query, it is
   * the whole list, so the column list is the full list whatever is typed.
   */
  lemma {:induction false} ColumnListIsFullList(list: seq<App>, queryText: string)
    ensures AppColumnList(list, FilteredList(list, INITIAL_QUERY), queryText) == list
  {
    forall a | a in list ensures LabelContains(INITIAL_QUERY)(a) {
      ContainsEmpty(a.appName);
    }
    FilterKeepsAll(list, LabelContains(INITIAL_QUERY));
  }

  /**
   * What the search shows for a typed query: exactly the apps of `list` whose
   * label contains the query ignoring case, in the order of `list`.
   */
  lemma {:induction false} SearchShowsMatchingApps(list: seq<App>, queryText: string)
    ensures var shown := RenderedRows(AppColumnList(list, FilteredList(list, INITIAL_QUERY), queryText), queryText);
      && SubsequenceOf(shown, list)
      && (forall a :: a in shown <==> a in list && ContainsIgnoreCase(a.appName, queryText))
      && forall a :: multiset(shown)[a] == if ContainsIgnoreCase(a.appName, queryText) then multiset(list)[a] else 0
  {
    ColumnListIsFullList(list, queryText);
  }

  // ---------------------------------------------------------------------------
  // Scroll direction
  // ---------------------------------------------------------------------------

  /**
   * `isScrollingUp`'s comparison: a change of first visible row decides on its own,
   * otherwise an offset that did not grow counts as scrolling up.
   */
  function ScrollingUp(previousIndex: int, previousScrollOffset: int, index: int, scrollOffset: int): (up: bool)
    ensures up <==> index < previousIndex || (index == previousIndex && scrollOffset <= previousScrollOffset)
  {
    if previousIndex != index then previousIndex > index else previousScrollOffset >= scrollOffset
  }

  /** The state `isScrollingUp` remembers per list state: the previous first row and its offset. */
  class ScrollDirection {
    var previousIndex: int
    var previousScrollOffset: int

    /** `remember(this) { mutableStateOf(...) }`: starts at the list's current position. */
    constructor (firstVisibleItemIndex: nat, firstVisibleItemScrollOffset: int)
      ensures previousIndex == firstVisibleItemIndex
      ensures previousScrollOffset == firstVisibleItemScrollOffset
    {
      previousIndex := firstVisibleItemIndex;
      previousScrollOffset := firstVisibleItemScrollOffset;
    }

    /** One evaluation of the derived state: compare, then remember the current position. */
    method IsScrollingUp(firstVisibleItemIndex: nat, firstVisibleItemScrollOffset: int) returns (up: bool)
      modifies this
      ensures up == ScrollingUp(old(previousIndex), old(previousScrollOffset), firstVisibleItemIndex, firstVisibleItemScrollOffset)
      ensures previousIndex == firstVisibleItemIndex
      ensures previousScrollOffset == firstVisibleItemScrollOffset
    {
      if previousIndex != firstVisibleItemIndex {
        up := previousIndex > firstVisibleItemIndex;
      } else {
        up := previousScrollOffset >= firstVisibleItemScrollOffset;
      }
      previousIndex := firstVisibleItemIndex;
      previousScrollOffset := firstVisibleItemScrollOffset;
    }
  }

  /**
   * Evaluating the detector twice at the same position: the first answer compares
   * with the remembered position, the second always reports scrolling up.
   */
  method ScrollingUpTwice(rememberedIndex: nat, rememberedOffset: int, index: nat, scrollOffset: int)
    returns (first: bool, second: bool)
    ensures first <==> index < rememberedIndex || (index == rememberedIndex && scrollOffset <= rememberedOffset)
    ensures second
  {
    var detector := new ScrollDirection(rememberedIndex, rememberedOffset);
    first := detector.IsScrollingUp(index, scrollOffset);
    second := detector.IsScrollingUp(index, scrollOffset);
  }

  // ---------------------------------------------------------------------------
  // Screen time
  // ---------------------------------------------------------------------------

  const MILLIS_PER_MINUTE: int := 60_000

  /**
   * `AppMetaData`'s screen time: `TimeUnit.MILLISECONDS.toMinutes(stats?.totalTimeVisible ?: 0)`,
   * whole minutes rounded toward zero, and 0 when there is no record.
   */
  function ScreenTimeMinutes(stats: Option<UsageStats>): (minutes: int)
    ensures stats.None? ==> minutes == 0
    ensures stats.Some? && stats.value.totalTimeVisible >= 0 ==>
      0 <= minutes && minutes * MILLIS_PER_MINUTE <= stats.value.totalTimeVisible < (minutes + 1) * MILLIS_PER_MINUTE
    ensures stats.Some? && stats.value.totalTimeVisible < 0 ==>
      minutes <= 0 && (minutes - 1) * MILLIS_PER_MINUTE < stats.value.totalTimeVisible <= minutes * MILLIS_PER_MINUTE
  {
    match stats
    case None => TruncDiv(0, MILLIS_PER_MINUTE)
    case Some(s) => TruncDiv(s.totalTimeVisible, MILLIS_PER_MINUTE)
  }
}
