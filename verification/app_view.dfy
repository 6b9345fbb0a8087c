/**
 The app's screen (`ContentView`): one block per fetched day, each listing that day's picks
 ranked by percentage, and the refresh that replaces the fetched days only when a fetch succeeds.
 */
module AppView {
  import opened Results
  import opened Ranking
  import opened Tiers
  import opened Fetch

  /** One list row: the pick and the colour of its percentage badge. */
  datatype Row = Row(pick: OptionPick, badge: Color)

  /** A day's content: the "No Option Picks Today" line, or its rows. */
  datatype DayBody = NoPicks | Rows(rows: seq<Row>)

  /** One day's block: its heading and its content. */
  datatype DayBlock = DayBlock(title: string, body: DayBody)

  /** The screen's state: the days of the last successful fetch. */
  datatype AppState = AppState(optionsData: seq<DailyOptions>)

  /** The picks shown by a list of rows, top to bottom. */
  function Picks(rows: seq<Row>): (ps: seq<OptionPick>)
    ensures |ps| == |rows|
    ensures forall i :: 0 <= i < |rows| ==> ps[i] == rows[i].pick
  {
    seq(|rows|, i requires 0 <= i < |rows| => rows[i].pick)
  }

  /** One row per ranked pick, badged by `background(for:)`. */
  function RowsFor(ranked: seq<OptionPick>): (rows: seq<Row>)
    ensures Picks(rows) == ranked
    ensures forall i :: 0 <= i < |rows| ==> rows[i].badge == AppBackground(ranked[i].percentage)
  {
    seq(|ranked|, i requires 0 <= i < |ranked| => Row(ranked[i], AppBackground(ranked[i].percentage)))
  }

  /**
   A day's block: the "no picks" line exactly when the day has no options; otherwise one row per
   option, the rows a permutation of the day's options in descending percentage, each badge the
   pick's own `color`.
   */
  function RenderDay(day: DailyOptions): (b: DayBlock)
    ensures b.title == "Options for " + day.date
    ensures b.body.NoPicks? <==> |day.options| == 0
    ensures b.body.Rows? ==> |b.body.rows| == |day.options|
    ensures b.body.Rows? ==> multiset(Picks(b.body.rows)) == multiset(day.options)
    ensures b.body.Rows? ==> Descending(Picks(b.body.rows))
    ensures b.body.Rows? ==> forall i :: 0 <= i < |b.body.rows| ==> b.body.rows[i].badge == AppColor(b.body.rows[i].pick.percentage)
  {
    var title := "Options for " + day.date;
    if |day.options| == 0 then DayBlock(title, NoPicks)
    else
      var rows := RowsFor(SortDescending(day.options));
      forall i | 0 <= i < |rows|
        ensures rows[i].badge == AppColor(rows[i].pick.percentage)
      {
        assert rows[i].pick == Picks(rows)[i];
        AppBackgroundAgreesWithColor(rows[i].pick.percentage);
      }
      DayBlock(title, Rows(rows))
  }

  /** The list: every fetched day, in the order fetched, none dropped or reordered. */
  function Render(days: seq<DailyOptions>): (blocks: seq<DayBlock>)
    ensures |blocks| == |days|
    ensures forall i :: 0 <= i < |days| ==> blocks[i].title == "Options for " + days[i].date
    ensures forall i :: 0 <= i < |days| ==> (blocks[i].body.NoPicks? <==> |days[i].options| == 0)
    ensures forall i :: 0 <= i < |days| ==> blocks[i] == RenderDay(days[i])
  {
    seq(|days|, i requires 0 <= i < |days| => RenderDay(days[i]))
  }

  /**
   `loadData`: the fetched days replace the state on success; a failure, or a handler that is
   never called, leaves what is on screen as it was.
   */
  function LoadData(state: AppState, outcome: Option<Result<seq<DailyOptions>, FetchError>>): (s: AppState)
    ensures outcome.Some? && outcome.value.Ok? ==> s.optionsData == outcome.value.value
    ensures !(outcome.Some? && outcome.value.Ok?) ==> s == state
  {
    match outcome
    case Some(Ok(data)) => AppState(data)
    case _ => state
  }

  /** A refresh that meets one undecodable document leaves the screen exactly as it was. */
  lemma RefreshWithBadDocumentKeepsScreen<D>(state: AppState, docs: seq<D>, decode: D -> Option<DailyOptions>, k: nat)
    requires k < |docs| && decode(docs[k]).None?
    ensures LoadData(state, LoadFirebaseData(Documents(docs), decode)) == state
    ensures Render(LoadData(state, LoadFirebaseData(Documents(docs), decode)).optionsData) == Render(state.optionsData)
  {
  }

  /** A refresh whose documents all decode shows one block per document, in query order. */
  lemma RefreshShowsEveryDocument<D>(state: AppState, docs: seq<D>, decode: D -> Option<DailyOptions>)
    requires forall i :: 0 <= i < |docs| ==> decode(docs[i]).Some?
    ensures var blocks := Render(LoadData(state, LoadFirebaseData(Documents(docs), decode)).optionsData);
      |blocks| == |docs| &&
      forall i :: 0 <= i < |docs| ==> blocks[i] == RenderDay(decode(docs[i]).value)
  {
  }
}
