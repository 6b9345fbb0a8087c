/**
 The screener half of `fetch_and_calculate_option_price` in YahooOptions.py: for each row the
 stock screener returned, pick the nearest call of the first expiration, skip what is out of
 range, record the contract as a fresh option record, store the day's records, and track the
 first one.

 The screener page, yfinance and Robinhood are not modelled; what they return for a row is part
 of the row (`Candidate`), together with the clock reading used for the record's `time`.
 */
module Screener {
  import opened Results
  import opened Records
  import opened Merge
  import OptionId

  /** A strike as Python prints a float: digits, a point, digits (`1040.0`). */
  datatype Strike = Strike(whole: string, fraction: string)

  function StrikeText(k: Strike): string {
    k.whole + "." + k.fraction
  }

  /**
   What the market calls return for a symbol: no expirations at all, or the first expiration,
   the strike nearest the pre-market price, the number of days until that expiration, and
   whether the Robinhood lookups inside the `try` succeeded.
   */
  datatype Listing =
    | NoExpirations
    | Listed(expiration: string, strike: Strike, daysOut: int, brokerOk: bool)

  /** One screener row with what the market calls and the clock gave for it. */
  datatype Candidate = Candidate(symbol: string, listing: Listing, stamp: string)

  /** The record a row contributes, if it is not skipped. */
  function RecordFor(c: Candidate): (r: Option<OptionRecord>)
    ensures r.None? <==>
      c.symbol == "AS" || c.listing.NoExpirations? || c.listing.daysOut > 6 || !c.listing.brokerOk
    ensures r.Some? ==>
      r.value == OptionRecord(OptionId.BuildId(c.symbol, StrikeText(c.listing.strike), c.listing.expiration), 0.0, None, None, Some(c.stamp))
  {
    if c.symbol == "AS" then None
    else
      match c.listing
      case NoExpirations => None
      case Listed(expiration, strike, daysOut, brokerOk) =>
        if daysOut > 6 then None
        else if !brokerOk then None
        else Some(OptionRecord(OptionId.BuildId(c.symbol, StrikeText(strike), expiration), 0.0, None, None, Some(c.stamp)))
  }

  /** `new_data["options"]` after the loop over the first rows, in row order. */
  function BuildRecords(cands: seq<Candidate>): (r: seq<OptionRecord>)
    ensures |r| <= |cands|
    ensures forall k :: 0 <= k < |r| ==> r[k].percentage == 0.0 && !HasPrices(r[k]) && r[k].time.Some?
    decreases |cands|
  {
    if |cands| == 0 then []
    else
      var prev := BuildRecords(cands[..|cands| - 1]);
      match RecordFor(cands[|cands| - 1])
      case None => prev
      case Some(rec) => prev + [rec]
  }

  /** Rows contribute independently: the records of a concatenation are the concatenated records. */
  lemma {:induction false} BuildRecordsSplits(a: seq<Candidate>, b: seq<Candidate>)
    ensures BuildRecords(a + b) == BuildRecords(a) + BuildRecords(b)
    decreases |b|
  {
    if |b| == 0 {
      assert a + b == a;
    } else {
      var b' := b[..|b| - 1];
      assert (a + b)[..|a + b| - 1] == a + b';
      assert (a + b)[|a + b| - 1] == b[|b| - 1];
      BuildRecordsSplits(a, b');
    }
  }

  /** A record is built exactly when some row yields it. */
  lemma {:induction false} BuiltRecordsComeFromRows(cands: seq<Candidate>, rec: OptionRecord)
    ensures rec in BuildRecords(cands) <==> exists i :: 0 <= i < |cands| && RecordFor(cands[i]) == Some(rec)
    decreases |cands|
  {
    if |cands| > 0 {
      var prefix := cands[..|cands| - 1];
      BuiltRecordsComeFromRows(prefix, rec);
      assert forall i :: 0 <= i < |prefix| ==> prefix[i] == cands[i];
      if rec in BuildRecords(cands) && !(rec in BuildRecords(prefix)) {
        assert RecordFor(cands[|cands| - 1]) == Some(rec);
      }
      if exists i :: 0 <= i < |cands| && RecordFor(cands[i]) == Some(rec) {
        var i :| 0 <= i < |cands| && RecordFor(cands[i]) == Some(rec);
        if i < |prefix| {
          assert RecordFor(prefix[i]) == Some(rec);
        }
      }
    }
  }

  /** A row yields a record whose id the tracker and the refresh loop can read back. */
  predicate WellFormed(c: Candidate) {
    c.listing.Listed? &&
    var k := c.listing.strike;
    |c.symbol| > 0 && OptionId.AllIn(c.symbol, OptionId.Word) &&
    |k.whole| > 0 && OptionId.AllIn(k.whole, OptionId.Digit) &&
    |k.fraction| > 0 && OptionId.AllIn(k.fraction, OptionId.Digit) &&
    OptionId.DateAt(c.listing.expiration, 0) && |c.listing.expiration| == 10
  }

  /**
   A record built from a well-formed row splits back to its symbol, strike and expiration, and
   matches the pattern the refresh loop filters on.
   */
  lemma RecordIdRoundTrips(c: Candidate)
    requires WellFormed(c) && RecordFor(c).Some?
    ensures var id := RecordFor(c).value.id;
      OptionId.ParseId(id) == Ok(OptionId.ParsedId(c.symbol, StrikeText(c.listing.strike), c.listing.expiration))
    ensures OptionId.MatchesIdPattern(RecordFor(c).value.id)
  {
    var k := c.listing.strike;
    var strike := StrikeText(k);
    var exp := c.listing.expiration;
    assert OptionId.IsToken(c.symbol) by {
      forall m | 0 <= m < |c.symbol| ensures !OptionId.IsSpace(c.symbol[m]) {
        assert OptionId.InClass(c.symbol[m], OptionId.Word);
      }
    }
    assert OptionId.IsToken(exp) by {
      forall m | 0 <= m < |exp| ensures !OptionId.IsSpace(exp[m]) {
        assert exp[m] == '-' || OptionId.IsDigit(exp[m]);
      }
    }
    assert forall m :: 0 <= m < |strike| ==> strike[m] == '.' || OptionId.IsDigit(strike[m]) by {
      forall m | 0 <= m < |strike| ensures strike[m] == '.' || OptionId.IsDigit(strike[m]) {
        if m < |k.whole| {
          assert strike[m] == k.whole[m] && OptionId.InClass(k.whole[m], OptionId.Digit);
        } else if m > |k.whole| {
          assert strike[m] == k.fraction[m - |k.whole| - 1] && OptionId.InClass(k.fraction[m - |k.whole| - 1], OptionId.Digit);
        }
      }
    }
    assert '$' !in strike;
    OptionId.ParseBuiltId(c.symbol, strike, exp);
    OptionId.BuiltIdMatchesPattern(c.symbol, k.whole, k.fraction, exp);
  }

  /**
   YahooOptions.py, lines 258-270: the loop over the new records tracks the first one and then breaks, so only
   that record's parts are looked at; with no records nothing is tracked.
   */
  function TrackTarget(records: seq<OptionRecord>): (r: Option<Result<OptionId.ParsedId, OptionId.ParseError>>)
    ensures r.None? <==> |records| == 0
    ensures r.Some? ==> r.value == OptionId.ParseId(records[0].id)
  {
    if |records| == 0 then None else Some(OptionId.ParseId(records[0].id))
  }

  /** What a screener run leaves: the stored day document and the contract it tracks. */
  datatype ScreenRun = ScreenRun(doc: DayDoc, tracked: Option<Result<OptionId.ParsedId, OptionId.ParseError>>)

  /**
   Store the day's records with the YahooOptions merge, then track the first record. A
   `KeyError` from the merge ends the run before any tracking.
   */
  function RunScreener(date: string, stored: StoredDoc, cands: seq<Candidate>): (r: Result<ScreenRun, MergeError>)
    ensures r.Ok? <==> UpdateDocument(PercentageAndPrices, date, stored, BuildRecords(cands)).Ok?
    ensures r.Ok? ==> r.value.doc == UpdateDocument(PercentageAndPrices, date, stored, BuildRecords(cands)).value
    ensures r.Ok? ==> r.value.tracked == TrackTarget(BuildRecords(cands))
  {
    var records := BuildRecords(cands);
    match UpdateDocument(PercentageAndPrices, date, stored, records)
    case Err(e) => Err(e)
    case Ok(doc) => Ok(ScreenRun(doc, TrackTarget(records)))
  }

  /** The tracked contract is the first row that yields a record, read back from its id. */
  lemma {:induction false} TrackedIsFirstRecorded(cands: seq<Candidate>, i: nat)
    requires i < |cands| && RecordFor(cands[i]).Some? && WellFormed(cands[i])
    requires forall j :: 0 <= j < i ==> RecordFor(cands[j]).None?
    ensures TrackTarget(BuildRecords(cands)) ==
      Some(Ok(OptionId.ParsedId(cands[i].symbol, StrikeText(cands[i].listing.strike), cands[i].listing.expiration)))
  {
    FirstRecordIsFirstYield(cands, i);
    RecordIdRoundTrips(cands[i]);
  }

  /** The first record built is the one from the first row that yields a record. */
  lemma {:induction false} FirstRecordIsFirstYield(cands: seq<Candidate>, i: nat)
    requires i < |cands| && RecordFor(cands[i]).Some?
    requires forall j :: 0 <= j < i ==> RecordFor(cands[j]).None?
    ensures |BuildRecords(cands)| > 0 && BuildRecords(cands)[0] == RecordFor(cands[i]).value
    decreases |cands|
  {
    var prefix := cands[..|cands| - 1];
    assert forall j :: 0 <= j < |prefix| ==> prefix[j] == cands[j];
    if i == |cands| - 1 {
      NothingBeforeFirst(prefix);
    } else {
      FirstRecordIsFirstYield(prefix, i);
    }
  }

  /** Rows that all get skipped contribute nothing. */
  lemma {:induction false} NothingBeforeFirst(cands: seq<Candidate>)
    requires forall j :: 0 <= j < |cands| ==> RecordFor(cands[j]).None?
    ensures BuildRecords(cands) == []
    decreases |cands|
  {
    if |cands| > 0 {
      NothingBeforeFirst(cands[..|cands| - 1]);
    }
  }

  /** On a day with no document yet, a screen whose records have distinct ids is stored exactly as built. */
  lemma FirstScreenStoresRecords(date: string, cands: seq<Candidate>)
    requires DistinctIds(BuildRecords(cands))
    ensures RunScreener(date, Absent, cands).Ok?
    ensures RunScreener(date, Absent, cands).value.doc == DayDoc(date, BuildRecords(cands))
  {
    FirstWriteStoresBatch(PercentageAndPrices, date, Absent, BuildRecords(cands));
  }

  /**
   Running the screener again on a day whose document already holds one of the new ids fails
   with a `KeyError`: the new record has no `high_price` to copy onto the stored one.
   */
  lemma RerunOnSameDayFails(date: string, opts: seq<OptionRecord>, cands: seq<Candidate>, k: nat)
    requires k < |BuildRecords(cands)| && BuildRecords(cands)[k].id in Ids(opts)
    ensures RunScreener(date, Present(Some(opts)), cands).Err?
  {
    PricelessMatchFails(opts, BuildRecords(cands), k);
  }
}
