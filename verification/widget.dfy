/**
 The home-screen widget (`OptionsWidget`): which picks of which day it shows for each widget
 family, how its rows are separated, and the entries its timeline provider hands to WidgetKit.
 */
module Widget {
  import opened Results
  import opened Ranking
  import opened Tiers
  import opened Fetch

  /** WidgetKit's widget families. */
  datatype Family =
    | SystemSmall | SystemMedium | SystemLarge | SystemExtraLarge
    | AccessoryCircular | AccessoryRectangular | AccessoryInline

  /** One element of the widget's list: a pick's row, or a divider between two rows. */
  datatype Item = RowItem(pick: OptionPick, badge: Color) | Divider

  /** The body under the heading: the "No Option Picks Today" line, or the list of items. */
  datatype WidgetBody = NoPicks | Items(items: seq<Item>)

  /** What the widget draws under its "OptionsAi by Quino" heading. */
  datatype Content = Content(date: string, body: WidgetBody)

  /** A timeline entry; `date` is a point in time, in seconds. */
  datatype Entry = Entry(date: int, optionsData: seq<DailyOptions>)

  /** A timeline: its entries and the time after which WidgetKit asks for the next one. */
  datatype Timeline = Timeline(entries: seq<Entry>, refreshAfter: int)

  /** Minutes between a timeline and the next refresh. */
  const RefreshMinutes: int := 15

  /** How many rows a family shows: 8 on a large widget, 3 on any other. */
  function RowLimit(family: Family): (n: nat)
    ensures family == SystemLarge ==> n == 8
    ensures family != SystemLarge ==> n == 3
  {
    if family == SystemLarge then 8 else 3
  }

  /**
   `sortedOptions.prefix(limit)`, paired with the picks it leaves out: the shown picks are the
   top `min(n, limit)` by percentage, none of the hidden ones beats any shown one, and together
   they are exactly the day's picks.
   */
  function SelectTop(options: seq<OptionPick>, limit: nat): (r: (seq<OptionPick>, seq<OptionPick>))
    ensures |r.0| == if |options| < limit then |options| else limit
    ensures multiset(r.0) + multiset(r.1) == multiset(options)
    ensures Descending(r.0)
    ensures forall i, j :: 0 <= i < |r.0| && 0 <= j < |r.1| ==> r.0[i].percentage >= r.1[j].percentage
  {
    var sorted := SortDescending(options);
    var k := if |sorted| < limit then |sorted| else limit;
    CutDescending(sorted, k);
    (sorted[..k], sorted[k..])
  }

  /** Cutting a descending list leaves a descending front, no worse than anything behind it. */
  lemma CutDescending(s: seq<OptionPick>, k: nat)
    requires Descending(s) && k <= |s|
    ensures Descending(s[..k])
    ensures forall i, j :: 0 <= i < k && 0 <= j < |s| - k ==> s[..k][i].percentage >= s[k..][j].percentage
    ensures multiset(s[..k]) + multiset(s[k..]) == multiset(s)
  {
    assert s == s[..k] + s[k..];
    forall i, j | 0 <= i < k && 0 <= j < |s| - k
      ensures s[..k][i].percentage >= s[k..][j].percentage
    {
      assert s[..k][i] == s[i] && s[k..][j] == s[k + j];
    }
  }

  /**
   The items from `ForEach(displayedOptions.indices)` starting at row `i`: each row, followed by a
   divider when it is not the last row.
   */
  function ItemsFrom(shown: seq<OptionPick>, i: nat): (items: seq<Item>)
    requires i <= |shown|
    ensures |items| == if i == |shown| then 0 else 2 * (|shown| - i) - 1
    ensures forall j :: 0 <= j < |items| ==> (items[j].Divider? <==> j % 2 == 1)
    ensures forall j :: i <= j < |shown| ==> items[2 * (j - i)] == RowItem(shown[j], WidgetColor(shown[j].percentage))
    decreases |shown| - i
  {
    if i == |shown| then []
    else
      var row := [RowItem(shown[i], WidgetColor(shown[i].percentage))];
      var divider := if i < |shown| - 1 then [Divider] else [];
      var rest := ItemsFrom(shown, i + 1);
      assert forall j :: i + 1 <= j < |shown| ==> rest[2 * (j - i) - 2] == RowItem(shown[j], WidgetColor(shown[j].percentage));
      row + divider + rest
  }

  /** Number of dividers in a list of items. */
  function DividerCount(items: seq<Item>): nat {
    if |items| == 0 then 0
    else (if items[0].Divider? then 1 else 0) + DividerCount(items[1..])
  }

  /** Number of rows in a list of items. */
  function RowCount(items: seq<Item>): nat {
    if |items| == 0 then 0
    else (if items[0].RowItem? then 1 else 0) + RowCount(items[1..])
  }

  /** Counting over an alternating row/divider list that starts and ends with a row. */
  lemma {:induction false} AlternatingCounts(items: seq<Item>)
    requires |items| % 2 == 1
    requires forall j :: 0 <= j < |items| ==> (items[j].Divider? <==> j % 2 == 1)
    ensures RowCount(items) == (|items| + 1) / 2
    ensures DividerCount(items) == |items| / 2
    decreases |items|
  {
    if |items| > 1 {
      var rest := items[2..];
      assert items[1..][1..] == rest;
      forall j | 0 <= j < |rest|
        ensures rest[j].Divider? <==> j % 2 == 1
      {
        assert rest[j] == items[j + 2];
      }
      AlternatingCounts(rest);
    }
  }

  /**
   The divider rule: k shown rows get exactly max(k - 1, 0) dividers, a divider never comes
   first or last, and no two dividers are adjacent.
   */
  lemma DividersSeparateRows(shown: seq<OptionPick>)
    ensures RowCount(ItemsFrom(shown, 0)) == |shown|
    ensures DividerCount(ItemsFrom(shown, 0)) == if |shown| == 0 then 0 else |shown| - 1
    ensures |shown| > 0 ==> ItemsFrom(shown, 0)[0].RowItem? && ItemsFrom(shown, 0)[|ItemsFrom(shown, 0)| - 1].RowItem?
    ensures forall j :: 0 <= j < |ItemsFrom(shown, 0)| - 1 ==> ItemsFrom(shown, 0)[j].RowItem? || ItemsFrom(shown, 0)[j + 1].RowItem?
  {
    var items := ItemsFrom(shown, 0);
    AlternatingShape(items);
  }

  /** Shape facts of a row/divider alternation that starts with a row. */
  lemma AlternatingShape(items: seq<Item>)
    requires |items| == 0 || |items| % 2 == 1
    requires forall j :: 0 <= j < |items| ==> (items[j].Divider? <==> j % 2 == 1)
    ensures RowCount(items) == (|items| + 1) / 2
    ensures DividerCount(items) == |items| / 2
    ensures |items| > 0 ==> items[0].RowItem? && items[|items| - 1].RowItem?
    ensures forall j :: 0 <= j < |items| - 1 ==> items[j].RowItem? || items[j + 1].RowItem?
  {
    if |items| > 0 {
      AlternatingCounts(items);
    }
    forall j | 0 <= j < |items| - 1
      ensures items[j].RowItem? || items[j + 1].RowItem?
    {
      if j % 2 == 1 {
        assert (j + 1) % 2 == 0;
      }
    }
  }

  /**
   `OptionsWidgetEntryView`: nothing under the heading when the entry has no days; otherwise only
   the first day, with the "no picks" line when it has no options, or else its top picks for the
   family, each followed by a divider unless it is the last.
   */
  function EntryView(entry: Entry, family: Family): (v: Option<Content>)
    ensures v.None? <==> |entry.optionsData| == 0
    ensures v.Some? ==> v.value.date == entry.optionsData[0].date
    ensures v.Some? ==> (v.value.body.NoPicks? <==> |entry.optionsData[0].options| == 0)
    ensures v.Some? && v.value.body.Items? ==>
      var n := |entry.optionsData[0].options|;
      var k := if n < RowLimit(family) then n else RowLimit(family);
      RowCount(v.value.body.items) == k && DividerCount(v.value.body.items) == k - 1
  {
    if |entry.optionsData| == 0 then None
    else
      var latest := entry.optionsData[0];
      if |latest.options| == 0 then Some(Content(latest.date, NoPicks))
      else
        var shown := SelectTop(latest.options, RowLimit(family)).0;
        DividersSeparateRows(shown);
        Some(Content(latest.date, Items(ItemsFrom(shown, 0))))
  }

  /** The picks a widget of this family lists for an entry, in display order. */
  function Displayed(entry: Entry, family: Family): seq<OptionPick>
    requires |entry.optionsData| > 0
  {
    SelectTop(entry.optionsData[0].options, RowLimit(family)).0
  }

  /**
   The listed rows are the widget's top picks of the first day, in order, badged with the
   widget's own `color`; later days never appear.
   */
  lemma EntryViewListsTopPicks(entry: Entry, family: Family)
    requires |entry.optionsData| > 0 && |entry.optionsData[0].options| > 0
    ensures EntryView(entry, family).value.body.Items?
    ensures var items := EntryView(entry, family).value.body.items;
      var shown := Displayed(entry, family);
      forall j :: 0 <= j < |shown| ==> items[2 * j] == RowItem(shown[j], WidgetColor(shown[j].percentage))
    ensures EntryView(entry, family) == EntryView(Entry(entry.date, entry.optionsData[..1]), family)
  {
  }

  /** `placeholder(in:)`: an entry with no days. */
  function Placeholder(now: int): (e: Entry)
    ensures e.date == now && |e.optionsData| == 0
    ensures forall family :: EntryView(e, family).None?
  {
    Entry(now, [])
  }

  /** The one entry built from a fetch outcome: the fetched days, or no days at all on failure. */
  function EntryFor(outcome: Result<seq<DailyOptions>, FetchError>, now: int): (e: Entry)
    ensures e.date == now
    ensures outcome.Ok? ==> e.optionsData == outcome.value
    ensures outcome.Err? ==> e.optionsData == []
  {
    match outcome
    case Ok(days) => Entry(now, days)
    case Err(_) => Entry(now, [])
  }

  /** `getSnapshot(in:completion:)`: one entry, or nothing if the fetch never completes. */
  function Snapshot(outcome: Option<Result<seq<DailyOptions>, FetchError>>, now: int): (e: Option<Entry>)
    ensures e.None? <==> outcome.None?
    ensures e.Some? ==> e.value.date == now
    ensures e.Some? && outcome.value.Err? ==> e.value.optionsData == []
    ensures e.Some? && outcome.value.Ok? ==> e.value.optionsData == outcome.value.value
  {
    match outcome
    case None => None
    case Some(result) => Some(EntryFor(result, now))
  }

  /**
   `getTimeline(in:completion:)`: exactly one entry, the snapshot's, and a refresh fifteen
   minutes after the current time.
   */
  function GetTimeline(outcome: Option<Result<seq<DailyOptions>, FetchError>>, now: int): (t: Option<Timeline>)
    ensures t.None? <==> outcome.None?
    ensures t.Some? ==> |t.value.entries| == 1 && t.value.entries[0] == Snapshot(outcome, now).value
    ensures t.Some? ==> t.value.refreshAfter == now + RefreshMinutes * 60
  {
    match outcome
    case None => None
    case Some(result) => Some(Timeline([EntryFor(result, now)], now + RefreshMinutes * 60))
  }

  /** A failed fetch, for any reason, yields a timeline whose one entry shows no content block. */
  lemma FailedFetchShowsNothing<D>(snapshot: Snapshot<D>, decode: D -> Option<DailyOptions>, now: int, family: Family)
    requires snapshot.QueryError? || (snapshot.Documents? && exists i :: 0 <= i < |snapshot.docs| && decode(snapshot.docs[i]).None?)
    ensures var t := GetTimeline(LoadFirebaseData(snapshot, decode), now);
      t.Some? && |t.value.entries| == 1 && EntryView(t.value.entries[0], family).None?
  {
  }
}
