# QuinOptions-Ai, modelled in Dafny

QuinOptions-Ai publishes a daily list of call-option "picks" with percentage gains.

- **Screener.** A Python job (`YahooOptions.py`) screens stocks before the market opens. For each stock it picks the call option nearest the pre-market price and writes one record per option to that day's `options_data` document, with percentage 0.
- **Refresh loop.** During the trading session a polling loop (`check_and_update_high_price`, in `YahooOptions.py` and again in `appUpdater.py`) reads each option's open and high price. When the gain beats the stored percentage, it raises the record's percentage and merges the raised records back into the document.
- **App and widget.** An iOS app (`ContentView.swift`) and a home-screen widget (`OptionsWidget.swift`) fetch the day documents and show each day's picks ranked by percentage, with a coloured badge.
- **Cleanup script.** A one-off script (`removeDuplicates.py`) drops repeated records from each day.

This project models that logic as pure functions over immutable records.

| module | file | what it models |
|---|---|---|
| `Results` | `results.dfy` | `Option` and `Result` |
| `Ranking` | `ranking.dfy` | pick records; the descending sort used by both screens |
| `Tiers` | `tiers.dfy` | badge colours, and the widget's `symbol` property, which its view never draws |
| `Fetch` | `fetch.dfy` | the all-or-nothing `loadFirebaseData` |
| `AppView` | `app_view.dfy` | the app's day blocks, and `loadData` |
| `Widget` | `widget.dfy` | the widget's rows and dividers, entries and timeline |
| `Records` | `records.dfy` | the Python option records |
| `Merge` | `merge.dfy` | `update_firestore_with_new_data`, in both variants |
| `OptionId` | `option_id.dfy` | building, splitting and pattern-matching option ids |
| `Raise` | `raise.dfy` | the polling loop that raises percentages |
| `Screener` | `screener.dfy` | building the day's records from screener rows |
| `Dedupe` | `dedupe.dfy` | `removeDuplicates.py` |

The two Python merge functions differ only in which keys they copy onto a matching record. One `Merge` module covers both, switched by `Fields`: `PercentageOnly` is the `appUpdater.py` variant and `PercentageAndPrices` the `YahooOptions.py` variant. The raise loop works the same way.

Python's `for` loops are modelled as "the state after the first k items", by recursion on the prefix. Two kinds of sharing between Python objects matter in the refresh loop:

- `new_options` holds references into the day's list, so `Raise` keeps indices into the list, and the batch is read from those indices at the moment it is sent.
- The merge appends an unmatched batch record as the object itself, so a later record of the same batch would overwrite the day's record too. The model merges by value. This is exact for the loop: it starts from the document it read, which already holds every id of the day, so no record is ever appended (`Raise.CheckAndUpdateAppendsNothing`).

I/O and the clock are parameters:

- a Firestore query result is a `Snapshot` of abstract documents, plus a `decode` function;
- a market lookup is a `Quote` per option per pass;
- a screener row comes with what yfinance and Robinhood returned for it (`Listing`) and a clock stamp;
- "now" is an integer number of seconds.

## Model

| member | source | states |
|---|---|---|
| Ranking.Insert | OptionsAi/ContentView.swift:46 | inserting a pick into a descending list keeps it descending and adds exactly that pick to its multiset |
| Ranking.SortDescending | OptionsAi/ContentView.swift:46 | the sorted picks are a permutation of the day's picks (same multiset) and are non-increasing in percentage |
| Ranking.RankedPercentagesAreUnique | OptionsAi/ContentView.swift:46 | any two descending arrangements of the same picks show the same percentage column, so in the app's full list an unstable sort cannot change what is displayed except the order of ties; where the widget cuts the list, which tied picks fall inside the cut may differ |
| Ranking.SortAgreesWithAnyDescendingArrangement | OptionsWidget/OptionsWidget.swift:101 | the modelled sort shows the same percentages as any arrangement Swift's `sorted` may return |
| Tiers.AppColor | OptionsAi/ContentView.swift:14-16 | the app's `Option.color` is green exactly when the percentage is above 30, so exactly 30 is red |
| Tiers.AppBackground | OptionsAi/ContentView.swift:146-148 | the row badge's `background(for:)` is the pick's own `Option.color`, for every percentage |
| Tiers.WidgetSymbol | OptionsWidget/OptionsWidget.swift:16-18 | the widget's `symbol` property is the up arrow exactly above 40, and up only where the widget colour is green |
| Tiers.WidgetColor | OptionsWidget/OptionsWidget.swift:19-21 | the widget's `Option.color` is red exactly below 30, so exactly 30 is green |
| Tiers.AppBoundary | OptionsAi/ContentView.swift:14-16 | the app's colour is green exactly when the percentage is above 30; exactly 30 is red |
| Tiers.AppBackgroundAgreesWithColor | OptionsAi/ContentView.swift:146-148 | `background(for:)` gives the same tier as `Option.color` for every percentage |
| Tiers.WidgetBoundary | OptionsWidget/OptionsWidget.swift:19-21 | the widget's colour is red exactly when the percentage is below 30; exactly 30 is green |
| Tiers.UpImpliesGreen | OptionsWidget/OptionsWidget.swift:16-21 | the widget's `symbol` property, which the view never draws, is up (above 40) only where `color` is green; 35 shows that green does not imply up |
| Tiers.ColorsAreMonotone | OptionsWidget/OptionsWidget.swift:16-21 | raising a percentage never turns a green badge red, on either surface |
| Tiers.SurfacesDisagreeOnlyAtThirty | OptionsWidget/OptionsWidget.swift:19-21 | app and widget colour a percentage differently exactly when it is 30 |
| Fetch.DecodeAll | OptionsAi/ContentView.swift:124-141 | success exactly when every document decodes; the days then match the documents one for one, in arrival order; otherwise a decoding failure with no partial list |
| Fetch.LoadFirebaseData | OptionsWidget/OptionsWidget.swift:25-47 | a query error fails; a snapshot succeeds exactly when all its documents decode; with neither, the completion is never called |
| Fetch.DecodingKeepsArrivalOrder | OptionsAi/ContentView.swift:125-137 | decoding a concatenation of documents is the concatenation of the decoded parts |
| AppView.RowsFor | OptionsAi/ContentView.swift:48-60 | one row per ranked pick, in order, each badge given by `background(for:)` |
| AppView.RenderDay | OptionsAi/ContentView.swift:33-61 | heading "Options for <date>"; the empty-day line exactly when there are no picks; otherwise one row per pick, a permutation ranked descending, badges by `Option.color` |
| AppView.Render | OptionsAi/ContentView.swift:33-67 | one block per fetched day, in order, each with its heading and empty-day line, and each block is that day's rendering (a descending permutation of its picks with the app badges) |
| AppView.LoadData | OptionsAi/ContentView.swift:101-112 | the state is replaced by the fetched days only on success; a failure or no reply leaves it as it was |
| AppView.RefreshWithBadDocumentKeepsScreen | OptionsAi/ContentView.swift:101-141 | a refresh whose batch has one undecodable document leaves state and screen unchanged |
| AppView.RefreshShowsEveryDocument | OptionsAi/ContentView.swift:101-137 | a refresh whose documents all decode shows one block per document, in arrival order |
| Widget.RowLimit | OptionsWidget/OptionsWidget.swift:102-103 | 8 rows for the large family, 3 for every other family |
| Widget.SelectTop | OptionsWidget/OptionsWidget.swift:101-103 | min(n, limit) picks are shown, ranked descending; shown and hidden together are the day's picks; every shown percentage is at least every hidden one |
| Widget.ItemsFrom | OptionsWidget/OptionsWidget.swift:105-128 | rows and dividers alternate, starting and ending with a row; row j holds the j-th shown pick with the widget's colour |
| Widget.AlternatingCounts | OptionsWidget/OptionsWidget.swift:106-127 | an odd-length row/divider alternation has one more row than dividers |
| Widget.DividersSeparateRows | OptionsWidget/OptionsWidget.swift:106-127 | k shown picks give k rows and max(k-1, 0) dividers, none first or last, never two in a row |
| Widget.EntryView | OptionsWidget/OptionsWidget.swift:73-139 | nothing is drawn without fetched days; otherwise only the first day is shown, with the empty-day line exactly when it has no picks |
| Widget.EntryViewListsTopPicks | OptionsWidget/OptionsWidget.swift:75-103 | the rows shown are the top picks of the first day; later days never affect the view |
| Widget.Placeholder | OptionsWidget/OptionsWidget.swift:151-153 | the placeholder entry is stamped now, has no days, and draws nothing in any widget family |
| Widget.EntryFor | OptionsWidget/OptionsWidget.swift:158-163 | a successful fetch gives an entry with the fetched days; a failure gives one with none |
| Widget.Snapshot | OptionsWidget/OptionsWidget.swift:155-166 | the snapshot entry is stamped now; on failure it has no days |
| Widget.GetTimeline | OptionsWidget/OptionsWidget.swift:168-184 | exactly one entry, equal to the snapshot's, and a refresh 15 minutes after now |
| Widget.FailedFetchShowsNothing | OptionsWidget/OptionsWidget.swift:168-184 | a query error or an undecodable document gives a one-entry timeline with no days, which draws nothing |
| Merge.FirstIndex | appUpdater.py:67-71 | the position of the first record with the id, or none when no record has it |
| Merge.FirstIndexIsUnique | appUpdater.py:67-71 | a matching position with no match before it is the one the inner loop stops at |
| Merge.Overwrite | YahooOptions.py:79-83 | the percentage is copied, and both prices too for the YahooOptions variant; id and time are kept; a missing price key is a `KeyError` naming it |
| Merge.MergeOne | appUpdater.py:65-73 | an unmatched record is appended; otherwise only the first match is overwritten and every other record stays as it was |
| Merge.MergeAll | appUpdater.py:65-73 | the ids afterwards are the stored ids, unchanged and in place, followed by new ids only: none of them was stored, each comes from the batch, and every batch id ends up present; it never fails for appUpdater or when every record has prices |
| Merge.MergeMatchesReference | appUpdater.py:65-73 | each stored record ends up as an independent reference gives it: the first record of an id takes the keys of the batch's last record with that id, and all others are unchanged |
| Merge.OverwriteLastWins | YahooOptions.py:79-83 | overwriting twice equals overwriting with the second record alone |
| Merge.MergeSettles | appUpdater.py:65-73 | after the merge, each id of the batch is present and its first record already holds that id's last values |
| Merge.MergeIsIdempotent | appUpdater.py:145-146 | resending a merged batch returns the same list, and for appUpdater, or when all records carry prices, the resend never fails |
| Merge.DistinctBatchAppendsUnmatched | appUpdater.py:72-73 | with distinct ids in the batch, the records after the old ones are exactly the unmatched batch records, in batch order |
| Merge.UnmatchedBatchIsAppended | appUpdater.py:72-73 | a batch of new distinct ids is appended as sent, after the unchanged existing records |
| Merge.PricelessMatchFails | YahooOptions.py:79-83 | in the YahooOptions merge, a record without prices whose id is already stored raises `KeyError` |
| Merge.StoredOptions | appUpdater.py:57-62 | a missing document or a missing `options` key reads as an empty list |
| Merge.UpdateDocument | appUpdater.py:53-80 | the written document carries the given date and exactly the merged list; a `KeyError` writes nothing |
| Merge.FirstWriteStoresBatch | YahooOptions.py:66-92 | with no document yet, a batch of distinct ids is stored exactly as sent |
| OptionId.Split | YahooOptions.py:259-261 | every token of `str.split()` is non-empty and free of whitespace |
| OptionId.SplitSeparated | YahooOptions.py:259-261 | a whitespace character separates: the words of `a`, whitespace, `b` are the words of `a` followed by the words of `b` |
| OptionId.SplitEmptyExactlyOnWhitespace | YahooOptions.py:259-261 | `str.split()` gives no words exactly when the text is all whitespace, empty text included |
| OptionId.SplitJoinWords | YahooOptions.py:259-261 | round trip: words joined by single spaces split back into exactly those words, in order |
| OptionId.RemoveAll | YahooOptions.py:261 | the result has no `$`, keeps every other character as often as the input has it, and text without `$` is unchanged |
| OptionId.RemoveAllConcat | YahooOptions.py:261 | `replace` works piece by piece: removing from a concatenation is removing from each part, in order |
| OptionId.RemoveAllChar | YahooOptions.py:261 | a single character is dropped exactly when it is `$`, and kept otherwise |
| OptionId.BuildId | YahooOptions.py:239 | a built id is as long as its parts plus the eight characters of ` $`, ` Call ` |
| OptionId.BuildIdLayout | YahooOptions.py:239 | a built id is the symbol, ` $`, the strike, ` Call ` and the expiration, each at its own place |
| OptionId.ParseId | YahooOptions.py:259-261 | fewer than four tokens is an `IndexError`; otherwise the symbol is token 0, the expiration token 3, and the strike is token 1 with every `$` removed |
| OptionId.SplitBuiltId | YahooOptions.py:239-261 | an id built from whitespace-free parts splits into exactly symbol, `$`strike, `Call`, expiration |
| OptionId.ParseBuiltId | YahooOptions.py:239-261 | round trip: parsing a built id gives back its symbol, strike and expiration |
| OptionId.BuiltIdMatchesPattern | appUpdater.py:109-113 | an id built from a word symbol, a digits.digits strike and a YYYY-MM-DD date matches the refresh loop's pattern |
| OptionId.SpelledMatches | appUpdater.py:111 | every text that the regular expression, read piece by piece, matches at its start is accepted by the automaton `MatchesIdPattern` |
| OptionId.PatternPieces | appUpdater.py:111 | every text the automaton accepts splits into the regular expression's pieces, each in its character class |
| OptionId.MatchesIdPatternExactly | YahooOptions.py:322 | `MatchesIdPattern` holds exactly when the text is a word run, whitespace, `$`, digits, `.`, digits, whitespace, a word run, whitespace and a `YYYY-MM-DD` date, followed by anything |
| Raise.RaiseRecord | YahooOptions.py:345-352 | a raise happens exactly when the high is above the open and the new percentage beats the old; it sets percentage, high and open together (percentage alone for appUpdater) and never lowers the percentage; the YahooOptions prices are replaced by the quote's, which may be lower |
| Raise.Step | appUpdater.py:107-143 | one option on one pass: its percentage goes up exactly when it is raised, and a raised record then holds the quote's percentage (and, for YahooOptions, both quote prices) as `RaiseRecord` gives it; otherwise it is untouched; id and time never change |
| Raise.Scan | appUpdater.py:107-143 | one pass: same length, ids and times; no percentage decreases; an id the pattern rejects is left unchanged; and every position holds exactly that record after one `Step` with its own quote, so the pass writes the quote's values |
| Raise.RaisedIn | appUpdater.py:134-139 | the positions appended to `new_options` on a pass are, in increasing order, exactly those raised |
| Raise.RaisedExactlyWhenIncreased | appUpdater.py:134-139 | a position is appended exactly when the pass increased its percentage |
| Raise.Batch | appUpdater.py:139-146 | the batch sent holds the current record at each pending position |
| Raise.Round | YahooOptions.py:318-359 | a pass, then the write: with nothing pending the stored document is unchanged and the pass succeeds; otherwise the pass succeeds exactly when merging the batch of pending records succeeds, and the stored document becomes the merged list; the pending list grows by this pass's raises |
| Raise.PassKeepsPrices | YahooOptions.py:345-352 | in the YahooOptions job, every record pending after a pass carries both prices |
| Raise.RoundKeepsValid | YahooOptions.py:318-359 | a pass keeps the pending indices in range and, for YahooOptions, their records priced |
| Raise.RoundNeverFails | YahooOptions.py:358-359 | the merge in a pass never raises `KeyError` |
| Raise.Poll | YahooOptions.py:308-363 | the loop over the passes before the deadline; a day with no options stops before any pass |
| Raise.CheckAndUpdate | YahooOptions.py:293-363 | without a latest document nothing happens; otherwise the loop runs on that day's options, with that same document as the one the merge reads |
| Raise.RoundAppendsNothing | appUpdater.py:64-73 | while the stored document holds every id of the day, a pass's merge appends nothing and keeps the stored ids as they were |
| Raise.PollAppendsNothing | appUpdater.py:97-146 | over the whole loop, a document that holds every id of the day keeps exactly its ids |
| Raise.CheckAndUpdateAppendsNothing | appUpdater.py:82-146 | the day's document ends the loop with exactly the day's ids in order, so no record of the day's list is appended and shared with the write |
| Raise.PollNeverFails | YahooOptions.py:308-363 | the whole loop never ends in a `KeyError`, and its invariant holds at the end |
| Raise.CheckAndUpdateNeverFails | appUpdater.py:82-150 | checking an existing day never ends in the merge's `KeyError`, for either job |
| Raise.PollOnlyRaises | appUpdater.py:97-150 | over the whole loop ids and times stay fixed, percentages never decrease, and ids the pattern rejects are never touched |
| Raise.RoundStoresPending | appUpdater.py:145-146 | from a valid state whose ids are distinct, a pass's write succeeds and stores every record in `new_options` with its current percentage (and its current prices for YahooOptions) |
| Screener.RecordFor | YahooOptions.py:201-251 | a row is skipped exactly for symbol "AS", no expirations, more than 6 days out, or a failed broker lookup; otherwise it gives the record with the built id, percentage 0, no prices and the stamp |
| Screener.BuildRecords | YahooOptions.py:200-254 | at most one record per row, each with percentage 0, no prices and a time |
| Screener.BuildRecordsSplits | YahooOptions.py:201-251 | rows contribute independently: the records of concatenated rows are the concatenated records |
| Screener.BuiltRecordsComeFromRows | YahooOptions.py:201-251 | a record is in the list exactly when some row yields it |
| Screener.RecordIdRoundTrips | YahooOptions.py:239-261 | a well-formed row's record id parses back to its symbol, strike and expiration, and matches the refresh loop's pattern |
| Screener.TrackTarget | YahooOptions.py:258-270 | only the first new record is tracked, and nothing is tracked when there are none |
| Screener.RunScreener | YahooOptions.py:256-270 | the records are merged into the day's document, then the first is tracked; a `KeyError` stops the run first |
| Screener.TrackedIsFirstRecorded | YahooOptions.py:258-270 | the tracked contract is the first non-skipped row's symbol, strike and expiration |
| Screener.FirstScreenStoresRecords | YahooOptions.py:256 | on a day without a document, records with distinct ids are stored exactly as built |
| Screener.RerunOnSameDayFails | YahooOptions.py:76-86 | rerunning the screener on a day whose document already holds one of the new ids fails with `KeyError` |
| Dedupe.Dedupe | removeDuplicates.py:10 | no record repeats, every original record is kept, and nothing new appears |
| Dedupe.AnyTwoOutputsArePermutations | removeDuplicates.py:10 | any two possible outputs differ only in order |
| Dedupe.DedupeCountsOnce | removeDuplicates.py:10 | each distinct record of the day appears exactly once; nothing else appears |
| Dedupe.DedupeKeepsRepeatFree | removeDuplicates.py:10 | a list without repeats is left unchanged |
| Dedupe.DedupeIsIdempotent | removeDuplicates.py:8-11 | cleaning a cleaned list changes nothing |
| Dedupe.SameIdDifferentPercentageKept | removeDuplicates.py:10 | records with the same id but different percentages are both kept |
| Dedupe.DedupeDays | removeDuplicates.py:8-11 | same number of days, same dates; each day's options are deduplicated and never grow |

## Left out

- **Firestore, the Firebase SDK, JSON bridging, `JSONDecoder`.** These are external calls. Queries become a `Snapshot` value and decoding becomes an abstract `decode` function.
- **SwiftUI and WidgetKit layout.** Fonts, paddings, RGB values, dark-mode colours and the `%.2f` percentage text are presentation and float formatting. Badge colours are the `Color` enum.
- **`UUID` identity of `OptionsData`.** The app keys its day blocks by `id` (ContentView.swift, line 33), a `UUID()` made fresh for every decoded day. The keys are therefore unique, and the blocks appear in arrival order, which is what the model draws. The identity values themselves are not modelled.
- **`Double` percentages.** They are modelled as reals, so NaN and rounding are not represented.
- **The gain formula `round((high - open) / open * 100, 2)`.** It is floating point, and with an open of 0 and a higher high it raises `ZeroDivisionError`, which ends the loop. The computed percentage is an input of `Quote`, so `Raise.PollNeverFails` and `Raise.CheckAndUpdateNeverFails` speak only of the merge's `KeyError`.
- **Parsing price and strike text with `float(...)`, and its `ValueError`.** Strikes stay text.
- **Python's `str(float)`.** A strike is assumed to print as digits, a point and digits. Exponent notation is not modelled.
- **Unicode `\w` and `\d`.** The pattern uses their ASCII subsets. `str.isspace` is modelled by code point.
- **Timing.** `time.sleep`, the 30-minute and 3 h 30 min deadlines, and the `track_market_data` loop are not modelled. The number of passes is the length of the `market` sequence, and tracking is reduced to which contract is tracked.
- **Time arithmetic.** The `-7 h` stamp adjustment and the date arithmetic behind "days to expiration" are inputs: `stamp` and `daysOut`.
- **External data sources.** The Selenium screener page, its HTML regex, yfinance's nearest-strike choice, and the Robinhood login and lookups are I/O. Their results are inputs: `Candidate`, `Listing` and `Quote`.
- **A stored document other than the one read.** The refresh loop reads the latest document by its `date` field and writes to `document(date)`. These are taken to be the same document, as every write in the repository files a day under its own date. A document whose id differs from its `date` field is not modelled, and neither is a write by another process between passes.
- **Raise.Round: appended records shared with the day's list.** On a stored document that lacks an id of the day, Python's merge appends the day's record object itself, and a later batch record with that id would then also change the day's list. `Raise.Round` merges by value and does not model that. `Raise.CheckAndUpdate` never reaches such a state (`Raise.CheckAndUpdateAppendsNothing`).
- **Raise.Poll: appended records shared with the day's list.** The same as for `Raise.Round`, over every pass.
- **Diagnostics.** Every `print` in `appUpdater.py` and `YahooOptions.py`, and the `print` logging in `ContentView.swift` (lines 109-139), is output only and is dropped.
- **AppView.RowsFor: rows with the same id.** SwiftUI's `ForEach` keys rows by `Option.id` (ContentView.swift, line 48) and does not define what it draws when two picks share an id. The model draws one row per pick. Days can contain repeated records, which is why `removeDuplicates.py` exists.
- **`if last_doc:` on an empty dictionary, and a missing `options` key in the latest document.** Both are treated as impossible: a day document always has a date and a list.
- **Exceptions other than the merge's `KeyError`.** Python's `try`/`except` around the broker calls is modelled only as the boolean `brokerOk`.
- **Dedupe: key insertion order.** Two dictionaries with the same keys and values in a different insertion order give different tuples, and the script keeps both. Fixed records cannot express this, so such records count as equal.
- **Dedupe: order of the kept records.** The script's order depends on Python's set iteration and is not determined. `Dedupe.Dedupe` is one admissible order, and `IsDedupOf` states what every order satisfies. The script's comment says it keeps the last occurrence, but identical records cannot be told apart, so this is not observable.
- **Dedupe: file reading and writing in `removeDuplicates.py`.** This is I/O.
- **`OptionsWidgetLiveActivity.swift`, `OptionsAiApp.swift`, `OptionsWidgetBundle.swift`, the instructions sheet, and `DispatchQueue.main.async`.** The Live Activity code is commented out. The others are entry points or presentation. The state update is modelled as immediate.
- **Ranking.SortDescending: stability.** The model sorts stably, and Swift's `sorted` does not promise stability. The contract promises only a descending permutation. `Ranking.RankedPercentagesAreUnique` shows that the displayed percentages do not depend on how ties are ordered; in the app's full list only the order of tied ids may differ. The widget keeps only the first 8 or 3 picks (OptionsWidget.swift, line 103), so when a tie straddles that cut, which of the tied picks the widget shows may also differ; the shown percentages stay fixed, and `Widget.SelectTop` admits every such choice.
