/**
 The option records the Python jobs keep in each day's `options_data` document. A record is a
 dictionary with the keys `id`, `percentage`, `time` and, once a raise has been recorded by the
 YahooOptions job, `high_price` and `open_price`; keys a record lacks are `None` here.
 */
module Records {
  import opened Results

  /** One option record of a day document. */
  datatype OptionRecord = OptionRecord(
    id: string,
    percentage: real,
    highPrice: Option<real>,
    openPrice: Option<real>,
    time: Option<string>)

  /** A day document as written: its date and its list of records. */
  datatype DayDoc = DayDoc(date: string, options: seq<OptionRecord>)

  /**
   Which keys a job copies onto an existing record: `appUpdater.py` copies the percentage only,
   `YahooOptions.py` the percentage and both prices.
   */
  datatype Fields = PercentageOnly | PercentageAndPrices

  /** The record carries both `high_price` and `open_price`. */
  predicate HasPrices(rec: OptionRecord) {
    rec.highPrice.Some? && rec.openPrice.Some?
  }

  /** The id column of a list of records. */
  function Ids(opts: seq<OptionRecord>): (ids: seq<string>)
    ensures |ids| == |opts|
    ensures forall i :: 0 <= i < |opts| ==> ids[i] == opts[i].id
  {
    seq(|opts|, i requires 0 <= i < |opts| => opts[i].id)
  }
}
