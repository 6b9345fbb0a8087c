/**
 `loadFirebaseData`, which the app and the widget each define with the same logic: one query of
 the `options_data` collection ordered by date descending, then every document decoded in turn,
 the first decoding error abandoning the whole batch.

 The query itself and the JSON decoding are outside the model: a document is an abstract `D`,
 and `decode` says whether it becomes a `DailyOptions`.
 */
module Fetch {
  import opened Results
  import opened Ranking

  /** What the completion handler receives on failure. */
  datatype FetchError = QueryFailed | DecodingFailed

  /**
   What the query callback is handed: an error, a snapshot of documents, or neither. The Swift code
   tests the error first, then the snapshot, and does nothing when both are nil.
   */
  datatype Snapshot<D> = QueryError | Documents(docs: seq<D>) | NoReply

  /** Decodes every document in order; one failure yields a failure and no partial list. */
  function DecodeAll<D>(docs: seq<D>, decode: D -> Option<DailyOptions>): (r: Result<seq<DailyOptions>, FetchError>)
    ensures r.Ok? <==> forall i :: 0 <= i < |docs| ==> decode(docs[i]).Some?
    ensures r.Ok? ==> |r.value| == |docs|
    ensures r.Ok? ==> forall i :: 0 <= i < |docs| ==> r.value[i] == decode(docs[i]).value
    ensures r.Err? ==> r.error == DecodingFailed
  {
    if |docs| == 0 then Ok([])
    else
      match decode(docs[0])
      case None => Err(DecodingFailed)
      case Some(day) =>
        match DecodeAll(docs[1..], decode)
        case Err(e) => Err(e)
        case Ok(rest) => Ok([day] + rest)
  }

  /**
   The value passed to the completion handler, or `None` when the handler is never called
   (neither an error nor a snapshot came back).
   */
  function LoadFirebaseData<D>(snapshot: Snapshot<D>, decode: D -> Option<DailyOptions>): (r: Option<Result<seq<DailyOptions>, FetchError>>)
    ensures r.None? <==> snapshot.NoReply?
    ensures snapshot.QueryError? ==> r == Some(Err(QueryFailed))
    ensures snapshot.Documents? ==> r.Some? && (r.value.Ok? <==> forall i :: 0 <= i < |snapshot.docs| ==> decode(snapshot.docs[i]).Some?)
    ensures r.Some? && r.value.Ok? ==> snapshot.Documents? && |r.value.value| == |snapshot.docs|
  {
    match snapshot
    case QueryError => Some(Err(QueryFailed))
    case Documents(docs) => Some(DecodeAll(docs, decode))
    case NoReply => None
  }

  /** The decoded days keep the order the query returned the documents in. */
  lemma {:induction false} DecodingKeepsArrivalOrder<D>(front: seq<D>, back: seq<D>, decode: D -> Option<DailyOptions>)
    requires DecodeAll(front + back, decode).Ok?
    ensures DecodeAll(front, decode).Ok? && DecodeAll(back, decode).Ok?
    ensures DecodeAll(front + back, decode).value == DecodeAll(front, decode).value + DecodeAll(back, decode).value
  {
    if |front| > 0 {
      assert (front + back)[1..] == front[1..] + back;
      assert front == [front[0]] + front[1..];
      DecodingKeepsArrivalOrder(front[1..], back, decode);
    } else {
      assert front + back == back;
    }
  }
}
