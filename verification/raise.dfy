/**
 `check_and_update_high_price`, in both Python jobs: take the latest day document and, pass after
 pass until the deadline, look up each option's quote, raise its percentage when the day's high
 beats the open by more than the recorded percentage, and send every record raised so far to
 `update_firestore_with_new_data`.

 The market calls are a parameter: one `nat -> Quote` per pass, giving the quote for the option
 at each position. How many passes run before the deadline is the number of those functions.
 */
module Raise {
  import opened Results
  import opened Records
  import opened Merge
  import OptionId

  /** What the market calls report for one option on one pass. */
  datatype Quote =
    | NoHistory   // `get_option_historicals` returned nothing
    | NoTrades    // no contract or no `high_price` yet
    | Quoted(openPrice: real, highPrice: real, percentage: real)  // `percentage` is the rounded gain over the open

  /**
   The raise rule for one record: it applies only when the high is above the open and the gain
   beats the recorded percentage. `appUpdater.py` then stores the new percentage;
   `YahooOptions.py` stores it together with both prices.
   */
  function RaiseRecord(fields: Fields, rec: OptionRecord, quote: Quote): (r: Option<OptionRecord>)
    ensures r.Some? <==> quote.Quoted? && quote.highPrice > quote.openPrice && quote.percentage > rec.percentage
    ensures r.Some? ==> r.value.percentage > rec.percentage
    ensures r.Some? ==> r.value.id == rec.id && r.value.time == rec.time && r.value.percentage == quote.percentage
    ensures r.Some? && fields == PercentageOnly ==> r.value.highPrice == rec.highPrice && r.value.openPrice == rec.openPrice
    ensures r.Some? && fields == PercentageAndPrices ==> r.value.highPrice == Some(quote.highPrice) && r.value.openPrice == Some(quote.openPrice)
  {
    match quote
    case Quoted(open, high, percentage) =>
      if high > open && percentage > rec.percentage then
        match fields
        case PercentageOnly => Some(rec.(percentage := percentage))
        case PercentageAndPrices => Some(rec.(percentage := percentage, highPrice := Some(high), openPrice := Some(open)))
      else None
    case _ => None
  }

  /** The record is raised on this pass: its id parses and the raise rule applies. */
  predicate Raised(fields: Fields, rec: OptionRecord, quote: Quote) {
    OptionId.MatchesIdPattern(rec.id) && RaiseRecord(fields, rec, quote).Some?
  }

  /** The record after one pass: raised, or left as it was. */
  function Step(fields: Fields, rec: OptionRecord, quote: Quote): (r: OptionRecord)
    ensures r.id == rec.id && r.time == rec.time && r.percentage >= rec.percentage
    ensures r.percentage > rec.percentage <==> Raised(fields, rec, quote)
    ensures !Raised(fields, rec, quote) ==> r == rec
    ensures Raised(fields, rec, quote) && fields == PercentageAndPrices ==> HasPrices(r)
    ensures Raised(fields, rec, quote) ==> r == RaiseRecord(fields, rec, quote).value
  {
    if Raised(fields, rec, quote) then RaiseRecord(fields, rec, quote).value else rec
  }

  /**
   One pass of the `for option in last_doc['options']` loop. Records are updated in place, so
   the next pass starts from the raised percentages.
   */
  function Scan(fields: Fields, options: seq<OptionRecord>, quote: nat -> Quote): (r: seq<OptionRecord>)
    ensures |r| == |options|
    ensures forall i :: 0 <= i < |options| ==>
      r[i].id == options[i].id && r[i].time == options[i].time && r[i].percentage >= options[i].percentage
    ensures forall i :: 0 <= i < |options| && !OptionId.MatchesIdPattern(options[i].id) ==> r[i] == options[i]
    ensures forall i :: 0 <= i < |options| ==> r[i] == Step(fields, options[i], quote(i))
  {
    var r := seq(|options|, i requires 0 <= i < |options| => Step(fields, options[i], quote(i)));
    assert forall i :: 0 <= i < |options| ==> r[i] == Step(fields, options[i], quote(i));
    r
  }

  /** The positions among the first `k` that this pass raises, in list order: what it appends to `new_options`. */
  function RaisedIn(fields: Fields, options: seq<OptionRecord>, quote: nat -> Quote, k: nat): (r: seq<nat>)
    requires k <= |options|
    ensures forall j :: 0 <= j < |r| ==> r[j] < k
    ensures forall j, j' :: 0 <= j < j' < |r| ==> r[j] < r[j']
    ensures forall i :: 0 <= i < k ==> (i in r <==> Raised(fields, options[i], quote(i)))
  {
    if k == 0 then []
    else
      var prev := RaisedIn(fields, options, quote, k - 1);
      if Raised(fields, options[k - 1], quote(k - 1)) then
        var r := prev + [k - 1];
        assert forall i :: i in r <==> i in prev || i == k - 1;
        r
      else prev
  }

  /** A pass raises exactly the records whose percentage it increases. */
  lemma RaisedExactlyWhenIncreased(fields: Fields, options: seq<OptionRecord>, quote: nat -> Quote, i: nat)
    requires i < |options|
    ensures i in RaisedIn(fields, options, quote, |options|) <==> Scan(fields, options, quote)[i].percentage > options[i].percentage
  {
  }

  /** `new_options` points at records of the day's list; it is read whenever the batch is sent. */
  predicate PendingIn(options: seq<OptionRecord>, pending: seq<nat>) {
    forall k :: 0 <= k < |pending| ==> pending[k] < |options|
  }

  /** The batch sent to the merge: the current state of each pending record. */
  function Batch(options: seq<OptionRecord>, pending: seq<nat>): (b: seq<OptionRecord>)
    requires PendingIn(options, pending)
    ensures |b| == |pending|
    ensures forall k :: 0 <= k < |pending| ==> b[k] == options[pending[k]]
  {
    seq(|pending|, k requires 0 <= k < |pending| => options[pending[k]])
  }

  /** The loop's state between passes: the day's records, `new_options`, and the stored document. */
  datatype PollState = PollState(options: seq<OptionRecord>, pending: seq<nat>, stored: StoredDoc)

  /**
   What the loop keeps between passes: `new_options` points into the list, and for
   `YahooOptions.py` every record it points at carries both prices.
   */
  predicate Valid(fields: Fields, s: PollState) {
    PendingIn(s.options, s.pending) &&
    (fields == PercentageAndPrices ==> forall k :: 0 <= k < |s.pending| ==> HasPrices(s.options[s.pending[k]]))
  }

  /**
   One pass followed by the write of every record raised so far, if there is one. Records are
   merged by value, which matches Python while the stored document holds every id of the day
   (`StoresEveryId`).
   */
  function Round(fields: Fields, date: string, s: PollState, quote: nat -> Quote): (r: Result<PollState, MergeError>)
    requires PendingIn(s.options, s.pending)
    ensures r.Ok? ==> r.value.options == Scan(fields, s.options, quote)
    ensures r.Ok? ==> r.value.pending == s.pending + RaisedIn(fields, s.options, quote, |s.options|)
    ensures r.Ok? ==> PendingIn(r.value.options, r.value.pending)
    ensures var p := s.pending + RaisedIn(fields, s.options, quote, |s.options|);
      |p| == 0 ==> r.Ok? && r.value.stored == s.stored
    ensures var p := s.pending + RaisedIn(fields, s.options, quote, |s.options|);
      var o := Scan(fields, s.options, quote);
      |p| > 0 ==> (r.Ok? <==> MergeAll(fields, StoredOptions(s.stored), Batch(o, p)).Ok?)
    ensures var p := s.pending + RaisedIn(fields, s.options, quote, |s.options|);
      var o := Scan(fields, s.options, quote);
      |p| > 0 && r.Ok? ==> r.value.stored == Present(Some(MergeAll(fields, StoredOptions(s.stored), Batch(o, p)).value))
  {
    var options := Scan(fields, s.options, quote);
    var pending := s.pending + RaisedIn(fields, s.options, quote, |s.options|);
    if |pending| == 0 then Ok(PollState(options, pending, s.stored))
    else
      match UpdateDocument(fields, date, s.stored, Batch(options, pending))
      case Err(e) => Err(e)
      case Ok(doc) => Ok(PollState(options, pending, Present(Some(doc.options))))
  }

  /** For `YahooOptions.py`, every record pending after a pass carries both prices: raising sets them, and later passes keep or replace them. */
  lemma PassKeepsPrices(fields: Fields, s: PollState, quote: nat -> Quote)
    requires Valid(fields, s) && fields == PercentageAndPrices
    ensures var options := Scan(fields, s.options, quote);
      var pending := s.pending + RaisedIn(fields, s.options, quote, |s.options|);
      forall k :: 0 <= k < |pending| ==> HasPrices(options[pending[k]])
  {
    var options := Scan(fields, s.options, quote);
    var raised := RaisedIn(fields, s.options, quote, |s.options|);
    var pending := s.pending + raised;
    forall k | 0 <= k < |pending|
      ensures HasPrices(options[pending[k]])
    {
      var i := pending[k];
      assert options[i] == Step(fields, s.options[i], quote(i));
      if k >= |s.pending| {
        assert raised[k - |s.pending|] == i;
      } else {
        assert HasPrices(s.options[i]);
      }
    }
  }

  /** A pass keeps the loop's invariant. */
  lemma RoundKeepsValid(fields: Fields, date: string, s: PollState, quote: nat -> Quote)
    requires Valid(fields, s)
    ensures Round(fields, date, s, quote).Ok? ==> Valid(fields, Round(fields, date, s, quote).value)
  {
    if fields == PercentageAndPrices {
      PassKeepsPrices(fields, s, quote);
    }
  }

  /** From a valid state a pass never ends in a `KeyError`: every record sent can be merged. */
  lemma RoundNeverFails(fields: Fields, date: string, s: PollState, quote: nat -> Quote)
    requires Valid(fields, s)
    ensures Round(fields, date, s, quote).Ok?
  {
    var options := Scan(fields, s.options, quote);
    var pending := s.pending + RaisedIn(fields, s.options, quote, |s.options|);
    if |pending| > 0 && fields == PercentageAndPrices {
      PassKeepsPrices(fields, s, quote);
      var batch := Batch(options, pending);
      assert forall k :: 0 <= k < |batch| ==> HasPrices(batch[k]);
    }
  }

  /**
   The `while True` loop after the passes that ran before the deadline. A day without records
   ends the loop before any pass; a `KeyError` from the merge ends it as an uncaught exception.
   */
  function Poll(fields: Fields, date: string, start: PollState, market: seq<nat -> Quote>): (r: Result<PollState, MergeError>)
    requires PendingIn(start.options, start.pending)
    ensures r.Ok? ==> PendingIn(r.value.options, r.value.pending)
    ensures r.Ok? ==> |r.value.options| == |start.options|
    ensures |start.options| == 0 ==> r == Ok(start)
    decreases |market|
  {
    if |start.options| == 0 || |market| == 0 then Ok(start)
    else
      match Poll(fields, date, start, market[..|market| - 1])
      case Err(e) => Err(e)
      case Ok(s) => Round(fields, date, s, market[|market| - 1])
  }

  /**
   `check_and_update_high_price`: nothing happens without a latest document. The document the
   merge reads back is `options_data/<date>`, which is the one the loop read: every write files
   a day under its own date and stores that date in it (YahooOptions.py, lines 67 and 88-90), so the loop starts with the
   day's records already stored.
   */
  function CheckAndUpdate(fields: Fields, latest: Option<DayDoc>, market: seq<nat -> Quote>): (r: Option<Result<PollState, MergeError>>)
    ensures r.None? <==> latest.None?
    ensures r.Some? ==> r.value == Poll(fields, latest.value.date, PollState(latest.value.options, [], Present(Some(latest.value.options))), market)
  {
    match latest
    case None => None
    case Some(doc) => Some(Poll(fields, doc.date, PollState(doc.options, [], Present(Some(doc.options))), market))
  }

  /**
   Every record of the day's list has its id in the stored document, so the merge matches it
   rather than appending it. Python appends the day's record object itself, which a later record
   of the same batch would then overwrite in the day's list as well; while this holds, that
   never happens and reading records by value is exact.
   */
  predicate StoresEveryId(s: PollState) {
    forall i :: 0 <= i < |s.options| ==> s.options[i].id in Ids(StoredOptions(s.stored))
  }

  /** Merging records whose ids are all stored already adds no id. */
  lemma BatchAddsNoIds(fields: Fields, stored: seq<OptionRecord>, options: seq<OptionRecord>, pending: seq<nat>)
    requires PendingIn(options, pending)
    requires forall i :: 0 <= i < |options| ==> options[i].id in Ids(stored)
    requires MergeAll(fields, stored, Batch(options, pending)).Ok?
    ensures Ids(MergeAll(fields, stored, Batch(options, pending)).value) == Ids(stored)
  {
    var batch := Batch(options, pending);
    forall k | 0 <= k < |batch|
      ensures batch[k].id in Ids(stored)
    {
      assert batch[k] == options[pending[k]];
    }
    NoFreshIdsWhenAllSeen(Ids(stored), batch);
    assert Ids(stored) + [] == Ids(stored);
  }

  /** While every id is stored, a pass appends nothing: the stored ids stay exactly as they were. */
  lemma RoundAppendsNothing(fields: Fields, date: string, s: PollState, quote: nat -> Quote)
    requires PendingIn(s.options, s.pending) && StoresEveryId(s)
    ensures var r := Round(fields, date, s, quote);
      r.Ok? ==> Ids(StoredOptions(r.value.stored)) == Ids(StoredOptions(s.stored)) && StoresEveryId(r.value)
  {
    var options := Scan(fields, s.options, quote);
    var pending := s.pending + RaisedIn(fields, s.options, quote, |s.options|);
    var stored := StoredOptions(s.stored);
    assert forall i :: 0 <= i < |options| ==> options[i].id in Ids(stored);
    if |pending| > 0 && MergeAll(fields, stored, Batch(options, pending)).Ok? {
      BatchAddsNoIds(fields, stored, options, pending);
    }
  }

  /** Over the whole loop nothing is appended to a document that already holds every id of the day. */
  lemma {:induction false} PollAppendsNothing(fields: Fields, date: string, start: PollState, market: seq<nat -> Quote>)
    requires PendingIn(start.options, start.pending) && StoresEveryId(start)
    ensures var r := Poll(fields, date, start, market);
      r.Ok? ==> Ids(StoredOptions(r.value.stored)) == Ids(StoredOptions(start.stored)) && StoresEveryId(r.value)
    decreases |market|
  {
    if |start.options| > 0 && |market| > 0 {
      PollAppendsNothing(fields, date, start, market[..|market| - 1]);
      var prev := Poll(fields, date, start, market[..|market| - 1]);
      if prev.Ok? {
        RoundAppendsNothing(fields, date, prev.value, market[|market| - 1]);
      }
    }
  }

  /**
   The day's document ends the loop with exactly the ids it started with, in order: no record
   of the day's list is ever appended to it, so none is shared between the list and the write.
   */
  lemma CheckAndUpdateAppendsNothing(fields: Fields, latest: Option<DayDoc>, market: seq<nat -> Quote>)
    requires latest.Some?
    ensures var r := CheckAndUpdate(fields, latest, market).value;
      r.Ok? ==> Ids(StoredOptions(r.value.stored)) == Ids(latest.value.options)
  {
    var doc := latest.value;
    var start := PollState(doc.options, [], Present(Some(doc.options)));
    forall i | 0 <= i < |doc.options|
      ensures doc.options[i].id in Ids(StoredOptions(start.stored))
    {
      assert Ids(doc.options)[i] == doc.options[i].id;
    }
    PollAppendsNothing(fields, doc.date, start, market);
  }

  /** The loop never ends in a `KeyError`: the records it resends always carry what the merge reads. */
  lemma {:induction false} PollNeverFails(fields: Fields, date: string, start: PollState, market: seq<nat -> Quote>)
    requires Valid(fields, start)
    ensures Poll(fields, date, start, market).Ok?
    ensures Valid(fields, Poll(fields, date, start, market).value)
    decreases |market|
  {
    if |start.options| > 0 && |market| > 0 {
      PollNeverFails(fields, date, start, market[..|market| - 1]);
      var s := Poll(fields, date, start, market[..|market| - 1]).value;
      RoundNeverFails(fields, date, s, market[|market| - 1]);
      RoundKeepsValid(fields, date, s, market[|market| - 1]);
    }
  }

  /** Checking a day that exists never ends in the merge's `KeyError`, for either job. */
  lemma CheckAndUpdateNeverFails(fields: Fields, latest: Option<DayDoc>, market: seq<nat -> Quote>)
    requires latest.Some?
    ensures CheckAndUpdate(fields, latest, market).value.Ok?
  {
    var doc := latest.value;
    PollNeverFails(fields, doc.date, PollState(doc.options, [], Present(Some(doc.options))), market);
  }

  /**
   Over the whole loop no percentage goes down and no id or time changes; a record whose id the
   pattern rejects is never touched.
   */
  lemma {:induction false} PollOnlyRaises(fields: Fields, date: string, start: PollState, market: seq<nat -> Quote>)
    requires PendingIn(start.options, start.pending)
    ensures var r := Poll(fields, date, start, market);
      r.Ok? ==> forall i :: 0 <= i < |start.options| ==>
        r.value.options[i].id == start.options[i].id && r.value.options[i].time == start.options[i].time &&
        r.value.options[i].percentage >= start.options[i].percentage
    ensures var r := Poll(fields, date, start, market);
      r.Ok? ==> forall i :: 0 <= i < |start.options| && !OptionId.MatchesIdPattern(start.options[i].id) ==> r.value.options[i] == start.options[i]
    decreases |market|
  {
    if |start.options| > 0 && |market| > 0 {
      PollOnlyRaises(fields, date, start, market[..|market| - 1]);
    }
  }

  /** When the list's ids are distinct, the last record of a batch with a pending record's id is that record. */
  lemma LastSentIsCurrent(options: seq<OptionRecord>, pending: seq<nat>, k: nat)
    requires PendingIn(options, pending) && DistinctIds(options) && k < |pending|
    ensures LastWith(Batch(options, pending), options[pending[k]].id) == Some(options[pending[k]])
  {
    var batch := Batch(options, pending);
    var rec := options[pending[k]];
    assert batch[k] == rec;
    var m := LastWith(batch, rec.id).value;
    var j :| 0 <= j < |batch| && batch[j] == m;
    assert options[pending[j]].id == options[pending[k]].id;
    assert pending[j] == pending[k];
  }

  /** A pass keeps the day's ids, so it keeps them distinct. */
  lemma ScanKeepsDistinct(fields: Fields, options: seq<OptionRecord>, quote: nat -> Quote)
    requires DistinctIds(options)
    ensures DistinctIds(Scan(fields, options, quote))
  {
    var r := Scan(fields, options, quote);
    assert forall i :: 0 <= i < |options| ==> r[i].id == options[i].id;
  }

  /**
   When the list's ids are distinct, merging the batch of pending records stores each of them
   under its id with its current percentage (and, for `YahooOptions.py`, its current prices).
   */
  lemma SentIsStored(fields: Fields, before: seq<OptionRecord>, options: seq<OptionRecord>, pending: seq<nat>, k: nat)
    requires PendingIn(options, pending) && DistinctIds(options) && k < |pending|
    requires MergeAll(fields, before, Batch(options, pending)).Ok?
    requires fields == PercentageAndPrices ==> HasPrices(options[pending[k]])
    ensures var rec := options[pending[k]];
      var stored := MergeAll(fields, before, Batch(options, pending)).value;
      FirstIndex(stored, rec.id).Some? &&
      stored[FirstIndex(stored, rec.id).value].percentage == rec.percentage &&
      (fields == PercentageAndPrices ==>
        stored[FirstIndex(stored, rec.id).value].highPrice == rec.highPrice &&
        stored[FirstIndex(stored, rec.id).value].openPrice == rec.openPrice)
  {
    var batch := Batch(options, pending);
    MergeSettles(fields, before, batch);
    assert batch[k] == options[pending[k]];
    LastSentIsCurrent(options, pending, k);
    assert SettledAt(fields, MergeAll(fields, before, batch).value, batch, batch[k].id);
  }

  /**
   After a pass that sends a batch, when the day's ids are distinct, every pending record is
   stored with its current percentage (and, for `YahooOptions.py`, its current prices).
   */
  lemma RoundStoresPending(fields: Fields, date: string, s: PollState, quote: nat -> Quote)
    requires Valid(fields, s) && DistinctIds(s.options)
    ensures Round(fields, date, s, quote).Ok?
    ensures var r := Round(fields, date, s, quote).value;
      forall k :: 0 <= k < |r.pending| ==>
        var rec := r.options[r.pending[k]];
        var stored := StoredOptions(r.stored);
        FirstIndex(stored, rec.id).Some? &&
        stored[FirstIndex(stored, rec.id).value].percentage == rec.percentage &&
        (fields == PercentageAndPrices ==>
          stored[FirstIndex(stored, rec.id).value].highPrice == rec.highPrice &&
          stored[FirstIndex(stored, rec.id).value].openPrice == rec.openPrice)
  {
    RoundNeverFails(fields, date, s, quote);
    var r := Round(fields, date, s, quote).value;
    ScanKeepsDistinct(fields, s.options, quote);
    RoundKeepsValid(fields, date, s, quote);
    if |r.pending| > 0 {
      assert StoredOptions(r.stored) == MergeAll(fields, StoredOptions(s.stored), Batch(r.options, r.pending)).value;
      forall k | 0 <= k < |r.pending|
        ensures var rec := r.options[r.pending[k]];
          var stored := StoredOptions(r.stored);
          FirstIndex(stored, rec.id).Some? &&
          stored[FirstIndex(stored, rec.id).value].percentage == rec.percentage &&
          (fields == PercentageAndPrices ==>
            stored[FirstIndex(stored, rec.id).value].highPrice == rec.highPrice &&
            stored[FirstIndex(stored, rec.id).value].openPrice == rec.openPrice)
      {
        SentIsStored(fields, StoredOptions(s.stored), r.options, r.pending, k);
      }
    }
  }
}
