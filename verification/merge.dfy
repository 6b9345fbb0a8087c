/**
 `update_firestore_with_new_data`, written in both Python jobs: read the day document, fold a
 batch of incoming records into its options list, and write the document back.

 For each incoming record in turn, the first stored record with the same id is overwritten
 (which keys are copied is `Fields`); a record whose id is not there yet is appended. Records
 appended earlier in the same batch are matched like stored ones.
 */
module Merge {
  import opened Results
  import opened Records

  /** A dictionary lookup of a missing key (Python's `KeyError`). */
  datatype MergeError = KeyError(key: string)

  /** What `doc_ref.get()` finds: no document, or one whose `options` key may be missing. */
  datatype StoredDoc = Absent | Present(options: Option<seq<OptionRecord>>)

  /** The position of the first record with this id, if any. */
  function FirstIndex(opts: seq<OptionRecord>, id: string): (r: Option<nat>)
    ensures r.Some? ==> r.value < |opts| && opts[r.value].id == id
    ensures r.Some? ==> forall j :: 0 <= j < r.value ==> opts[j].id != id
    ensures r.None? ==> forall j :: 0 <= j < |opts| ==> opts[j].id != id
  {
    if |opts| == 0 then None
    else if opts[0].id == id then Some(0)
    else
      match FirstIndex(opts[1..], id)
      case None => None
      case Some(i) => Some(i + 1)
  }

  /** A position holding the first record with its id is what `FirstIndex` finds. */
  lemma FirstIndexIsUnique(opts: seq<OptionRecord>, id: string, i: nat)
    requires i < |opts| && opts[i].id == id
    requires forall j :: 0 <= j < i ==> opts[j].id != id
    ensures FirstIndex(opts, id) == Some(i)
  {
  }

  /**
   Copies the incoming record's keys onto a stored record with the same id. The percentage is
   always copied; with `PercentageAndPrices` both prices are read from the incoming record too,
   and a missing one raises `KeyError`. The id and the time are never touched.
   */
  function Overwrite(fields: Fields, existing: OptionRecord, incoming: OptionRecord): (r: Result<OptionRecord, MergeError>)
    ensures r.Ok? <==> fields == PercentageOnly || HasPrices(incoming)
    ensures r.Ok? ==> r.value.id == existing.id && r.value.time == existing.time
    ensures r.Ok? ==> r.value.percentage == incoming.percentage
    ensures r.Ok? && fields == PercentageOnly ==> r.value.highPrice == existing.highPrice && r.value.openPrice == existing.openPrice
    ensures r.Ok? && fields == PercentageAndPrices ==> r.value.highPrice == incoming.highPrice && r.value.openPrice == incoming.openPrice
    ensures r.Err? ==> r.error == KeyError(if incoming.highPrice.None? then "high_price" else "open_price")
  {
    match fields
    case PercentageOnly => Ok(existing.(percentage := incoming.percentage))
    case PercentageAndPrices =>
      if incoming.highPrice.None? then Err(KeyError("high_price"))
      else if incoming.openPrice.None? then Err(KeyError("open_price"))
      else Ok(existing.(percentage := incoming.percentage, highPrice := incoming.highPrice, openPrice := incoming.openPrice))
  }

  /**
   One pass of the outer loop: overwrite the first record with the incoming id and leave every
   other record alone, or append the incoming record when no record has its id.
   */
  function MergeOne(fields: Fields, opts: seq<OptionRecord>, incoming: OptionRecord): (r: Result<seq<OptionRecord>, MergeError>)
    ensures incoming.id !in Ids(opts) ==> r == Ok(opts + [incoming])
    ensures incoming.id in Ids(opts) ==> (r.Ok? <==> fields == PercentageOnly || HasPrices(incoming))
    ensures incoming.id in Ids(opts) && r.Ok? ==>
      var i := FirstIndex(opts, incoming.id).value;
      |r.value| == |opts| && r.value[i] == Overwrite(fields, opts[i], incoming).value &&
      forall j :: 0 <= j < |opts| && j != i ==> r.value[j] == opts[j]
  {
    match FirstIndex(opts, incoming.id)
    case None => Ok(opts + [incoming])
    case Some(i) =>
      match Overwrite(fields, opts[i], incoming)
      case Err(e) => Err(e)
      case Ok(rec) => Ok(opts[i := rec])
  }

  /**
   The ids a batch adds to a list whose ids are `seen`: each id of the batch not seen yet, once,
   in the order it first occurs in the batch.
   */
  function FreshIds(seen: seq<string>, incoming: seq<OptionRecord>): (ids: seq<string>)
    ensures forall k :: 0 <= k < |ids| ==> ids[k] !in seen
    ensures forall i :: 0 <= i < |incoming| ==> incoming[i].id in seen || incoming[i].id in ids
    ensures forall id :: id in ids ==> id in Ids(incoming)
    decreases |incoming|
  {
    if |incoming| == 0 then []
    else
      var prev := FreshIds(seen, incoming[..|incoming| - 1]);
      var id := incoming[|incoming| - 1].id;
      assert forall i :: 0 <= i < |incoming| - 1 ==> incoming[i] == incoming[..|incoming| - 1][i];
      assert forall x :: x in Ids(incoming[..|incoming| - 1]) ==> x in Ids(incoming);
      if id in seen || id in prev then prev else prev + [id]
  }

  /**
   The options list after the first `|incoming|` passes of the loop over the batch; the first
   `KeyError` ends the loop, and nothing is written.
   */
  function MergeAll(fields: Fields, opts: seq<OptionRecord>, incoming: seq<OptionRecord>): (r: Result<seq<OptionRecord>, MergeError>)
    ensures fields == PercentageOnly || (forall i :: 0 <= i < |incoming| ==> HasPrices(incoming[i])) ==> r.Ok?
    ensures r.Ok? ==> Ids(r.value) == Ids(opts) + FreshIds(Ids(opts), incoming)
    decreases |incoming|
  {
    if |incoming| == 0 then Ok(opts)
    else
      var n := incoming[|incoming| - 1];
      match MergeAll(fields, opts, incoming[..|incoming| - 1])
      case Err(e) => Err(e)
      case Ok(acc) =>
        var r := MergeOne(fields, acc, n);
        assert r.Ok? ==> Ids(r.value) == Ids(acc) + (if n.id in Ids(acc) then [] else [n.id]);
        r
  }
  /** The last record of the batch with this id: the one whose keys a record with that id ends up with. */
  function LastWith(incoming: seq<OptionRecord>, id: string): (r: Option<OptionRecord>)
    ensures r.Some? ==> r.value.id == id && r.value in incoming
    ensures r.None? ==> forall i :: 0 <= i < |incoming| ==> incoming[i].id != id
    decreases |incoming|
  {
    if |incoming| == 0 then None
    else if incoming[|incoming| - 1].id == id then Some(incoming[|incoming| - 1])
    else
      var r := LastWith(incoming[..|incoming| - 1], id);
      assert forall i :: 0 <= i < |incoming| - 1 ==> incoming[i] == incoming[..|incoming| - 1][i];
      r
  }

  /**
   Reference definition of a stored record after a whole batch, without replaying the loop: the
   first record with a given id takes the keys of the batch's last record with that id; every
   other stored record is left as it was.
   */
  function MergedEntry(fields: Fields, opts: seq<OptionRecord>, incoming: seq<OptionRecord>, j: nat): Result<OptionRecord, MergeError>
    requires j < |opts|
  {
    match LastWith(incoming, opts[j].id)
    case None => Ok(opts[j])
    case Some(m) =>
      if FirstIndex(opts, opts[j].id) == Some(j) then Overwrite(fields, opts[j], m) else Ok(opts[j])
  }

  /** Overwriting twice leaves what the second overwrite alone would leave. */
  lemma OverwriteLastWins(fields: Fields, e: OptionRecord, m1: OptionRecord, m2: OptionRecord)
    requires Overwrite(fields, e, m1).Ok?
    ensures Overwrite(fields, Overwrite(fields, e, m1).value, m2) == Overwrite(fields, e, m2)
  {
  }

  /** One step of `MergeMatchesReference`, for one stored position `j`. */
  lemma ReferenceStep(fields: Fields, opts: seq<OptionRecord>, incoming: seq<OptionRecord>, acc: seq<OptionRecord>, j: nat)
    requires j < |opts| <= |acc| && |incoming| > 0
    requires Ids(acc) == Ids(opts) + FreshIds(Ids(opts), incoming[..|incoming| - 1])
    requires MergedEntry(fields, opts, incoming[..|incoming| - 1], j) == Ok(acc[j])
    requires MergeOne(fields, acc, incoming[|incoming| - 1]).Ok?
    ensures MergedEntry(fields, opts, incoming, j) == Ok(MergeOne(fields, acc, incoming[|incoming| - 1]).value[j])
  {
    var prefix := incoming[..|incoming| - 1];
    var n := incoming[|incoming| - 1];
    assert incoming == prefix + [n];
    var r := MergeOne(fields, acc, n).value;
    var x := opts[j].id;
    assert acc[j].id == Ids(acc)[j] == x;
    LastWithAppend(prefix, n, x);
    if x != n.id {
      if n.id in Ids(acc) {
        var i := FirstIndex(acc, n.id).value;
        assert i != j;
      }
      assert r[j] == acc[j];
    } else {
      assert x in Ids(acc);
      var i := FirstIndex(acc, x).value;
      assert i <= j;
      assert forall k :: 0 <= k < i ==> opts[k].id == Ids(acc)[k];
      FirstIndexIsUnique(opts, x, i);
      if j == i {
        match LastWith(prefix, x)
        case None =>
        case Some(m) => OverwriteLastWins(fields, opts[j], m, n);
      } else {
        assert r[j] == acc[j];
      }
    }
  }

  /** After a batch, the records already stored have `MergedEntry`'s values: the loop and the reference agree. */
  lemma {:induction false} MergeMatchesReference(fields: Fields, opts: seq<OptionRecord>, incoming: seq<OptionRecord>)
    requires MergeAll(fields, opts, incoming).Ok?
    ensures |opts| <= |MergeAll(fields, opts, incoming).value|
    ensures forall j {:trigger MergedEntry(fields, opts, incoming, j)} :: 0 <= j < |opts| ==> MergedEntry(fields, opts, incoming, j) == Ok(MergeAll(fields, opts, incoming).value[j])
    decreases |incoming|
  {
    var r := MergeAll(fields, opts, incoming).value;
    assert |Ids(r)| == |r|;
    if |incoming| > 0 {
      var prefix := incoming[..|incoming| - 1];
      var n := incoming[|incoming| - 1];
      MergeAllStep(fields, opts, incoming);
      MergeMatchesReference(fields, opts, prefix);
      var acc := MergeAll(fields, opts, prefix).value;
      forall j | 0 <= j < |opts|
        ensures MergedEntry(fields, opts, incoming, j) == Ok(r[j])
      {
        ReferenceStep(fields, opts, incoming, acc, j);
      }
    }
  }

  /** The id is present, and its first record already holds the keys of the batch's last record with that id. */
  ghost predicate SettledAt(fields: Fields, r: seq<OptionRecord>, incoming: seq<OptionRecord>, id: string) {
    FirstIndex(r, id).Some? && LastWith(incoming, id).Some? &&
    var p := FirstIndex(r, id).value;
    var m := LastWith(incoming, id).value;
    Overwrite(fields, r[p], m).Ok? ==> Overwrite(fields, r[p], m) == Ok(r[p])
  }

  /** Every id of the batch is settled in the list. */
  ghost predicate Settled(fields: Fields, r: seq<OptionRecord>, incoming: seq<OptionRecord>) {
    forall i {:trigger SettledAt(fields, r, incoming, incoming[i].id)} :: 0 <= i < |incoming| ==> SettledAt(fields, r, incoming, incoming[i].id)
  }

  /** The record just merged is settled: its first record holds its keys. */
  lemma MergeOneSettlesNewest(fields: Fields, acc: seq<OptionRecord>, n: OptionRecord)
    requires MergeOne(fields, acc, n).Ok?
    ensures var r := MergeOne(fields, acc, n).value;
      FirstIndex(r, n.id).Some? &&
      (Overwrite(fields, r[FirstIndex(r, n.id).value], n).Ok? ==>
        Overwrite(fields, r[FirstIndex(r, n.id).value], n) == Ok(r[FirstIndex(r, n.id).value]))
  {
    var r := MergeOne(fields, acc, n).value;
    if n.id in Ids(acc) {
      var p := FirstIndex(acc, n.id).value;
      FirstIndexIsUnique(r, n.id, p);
      OverwriteLastWins(fields, acc[p], n, n);
    } else {
      assert forall k :: 0 <= k < |acc| ==> acc[k].id == Ids(acc)[k];
      FirstIndexIsUnique(r, n.id, |acc|);
    }
  }

  /** Merging a record leaves the first record of every other id where it was, unchanged. */
  lemma MergeOneKeepsOthers(fields: Fields, acc: seq<OptionRecord>, n: OptionRecord, x: string)
    requires MergeOne(fields, acc, n).Ok? && x != n.id && FirstIndex(acc, x).Some?
    ensures var r := MergeOne(fields, acc, n).value;
      var p := FirstIndex(acc, x).value;
      FirstIndex(r, x) == Some(p) && r[p] == acc[p]
  {
    var r := MergeOne(fields, acc, n).value;
    var p := FirstIndex(acc, x).value;
    if n.id in Ids(acc) {
      var q := FirstIndex(acc, n.id).value;
      assert p != q;
    }
    assert r[p] == acc[p];
    FirstIndexIsUnique(r, x, p);
  }

  /** The last record with an id in a batch extended by `n`. */
  lemma LastWithAppend(prefix: seq<OptionRecord>, n: OptionRecord, x: string)
    ensures LastWith(prefix + [n], x) == if n.id == x then Some(n) else LastWith(prefix, x)
  {
    assert (prefix + [n])[..|prefix|] == prefix;
  }

  /** Merging one more record keeps every settled id settled and settles the record's own id. */
  lemma SettledAfterOne(fields: Fields, acc: seq<OptionRecord>, prefix: seq<OptionRecord>, n: OptionRecord, x: string)
    requires MergeOne(fields, acc, n).Ok?
    requires x == n.id || SettledAt(fields, acc, prefix, x)
    ensures SettledAt(fields, MergeOne(fields, acc, n).value, prefix + [n], x)
  {
    LastWithAppend(prefix, n, x);
    if x == n.id {
      MergeOneSettlesNewest(fields, acc, n);
    } else {
      MergeOneKeepsOthers(fields, acc, n, x);
    }
  }

  /** Merging the last record of a batch into a list settled for the rest settles the whole batch. */
  lemma SettledAfterStep(fields: Fields, acc: seq<OptionRecord>, incoming: seq<OptionRecord>)
    requires |incoming| > 0
    requires MergeOne(fields, acc, incoming[|incoming| - 1]).Ok?
    requires Settled(fields, acc, incoming[..|incoming| - 1])
    ensures Settled(fields, MergeOne(fields, acc, incoming[|incoming| - 1]).value, incoming)
  {
    var prefix := incoming[..|incoming| - 1];
    var n := incoming[|incoming| - 1];
    assert incoming == prefix + [n];
    forall i | 0 <= i < |incoming|
      ensures SettledAt(fields, MergeOne(fields, acc, n).value, incoming, incoming[i].id)
    {
      if i < |prefix| {
        assert incoming[i] == prefix[i];
      }
      SettledAfterOne(fields, acc, prefix, n, incoming[i].id);
    }
  }

  /** A successful merge of a non-empty batch is the merge of its last record into the merge of the rest. */
  lemma MergeAllStep(fields: Fields, opts: seq<OptionRecord>, incoming: seq<OptionRecord>)
    requires |incoming| > 0 && MergeAll(fields, opts, incoming).Ok?
    ensures var prefix := incoming[..|incoming| - 1];
      MergeAll(fields, opts, prefix).Ok? &&
      MergeOne(fields, MergeAll(fields, opts, prefix).value, incoming[|incoming| - 1]) == MergeAll(fields, opts, incoming)
  {
  }

  /** A merged list is settled with respect to the batch it absorbed. */
  lemma {:induction false} MergeSettles(fields: Fields, opts: seq<OptionRecord>, incoming: seq<OptionRecord>)
    requires MergeAll(fields, opts, incoming).Ok?
    ensures Settled(fields, MergeAll(fields, opts, incoming).value, incoming)
    decreases |incoming|
  {
    if |incoming| > 0 {
      var prefix := incoming[..|incoming| - 1];
      var n := incoming[|incoming| - 1];
      MergeAllStep(fields, opts, incoming);
      MergeSettles(fields, opts, prefix);
      SettledAfterStep(fields, MergeAll(fields, opts, prefix).value, incoming);
    }
  }

  /** A batch whose ids have all been seen adds no id. */
  lemma {:induction false} NoFreshIdsWhenAllSeen(seen: seq<string>, incoming: seq<OptionRecord>)
    requires forall i :: 0 <= i < |incoming| ==> incoming[i].id in seen
    ensures FreshIds(seen, incoming) == []
    decreases |incoming|
  {
    if |incoming| > 0 {
      var prefix := incoming[..|incoming| - 1];
      assert forall i :: 0 <= i < |prefix| ==> prefix[i] == incoming[i];
      NoFreshIdsWhenAllSeen(seen, prefix);
    }
  }

  /** A settled list already holds every id of the batch, so the batch appends nothing to it. */
  lemma SettledAddsNothing(fields: Fields, r: seq<OptionRecord>, incoming: seq<OptionRecord>)
    requires Settled(fields, r, incoming)
    ensures FreshIds(Ids(r), incoming) == []
  {
    forall i | 0 <= i < |incoming|
      ensures incoming[i].id in Ids(r)
    {
      assert SettledAt(fields, r, incoming, incoming[i].id);
      var p := FirstIndex(r, incoming[i].id).value;
      assert Ids(r)[p] == incoming[i].id;
    }
    NoFreshIdsWhenAllSeen(Ids(r), incoming);
  }

  /** On a settled list the reference leaves every record as it is. */
  lemma SettledIsFixed(fields: Fields, r: seq<OptionRecord>, incoming: seq<OptionRecord>, j: nat)
    requires Settled(fields, r, incoming) && j < |r|
    requires MergedEntry(fields, r, incoming, j).Ok?
    ensures MergedEntry(fields, r, incoming, j) == Ok(r[j])
  {
    match LastWith(incoming, r[j].id)
    case None =>
    case Some(m) =>
      if FirstIndex(r, r[j].id) == Some(j) {
        var i :| 0 <= i < |incoming| && incoming[i] == m;
        assert SettledAt(fields, r, incoming, incoming[i].id);
      }
  }

  /**
   Sending the same batch again changes nothing, which the polling loop relies on when it resends
   every record raised so far. With `PercentageOnly`, or when every record of the batch carries
   both prices, the resend always succeeds.
   */
  lemma MergeIsIdempotent(fields: Fields, opts: seq<OptionRecord>, incoming: seq<OptionRecord>)
    requires MergeAll(fields, opts, incoming).Ok?
    ensures var r := MergeAll(fields, opts, incoming).value;
      MergeAll(fields, r, incoming).Ok? ==> MergeAll(fields, r, incoming) == Ok(r)
    ensures var r := MergeAll(fields, opts, incoming).value;
      fields == PercentageOnly || (forall i :: 0 <= i < |incoming| ==> HasPrices(incoming[i])) ==> MergeAll(fields, r, incoming) == Ok(r)
  {
    var r := MergeAll(fields, opts, incoming).value;
    if MergeAll(fields, r, incoming).Ok? {
      var r' := MergeAll(fields, r, incoming).value;
      MergeSettles(fields, opts, incoming);
      MergeMatchesReference(fields, r, incoming);
      SettledAddsNothing(fields, r, incoming);
      assert |Ids(r')| == |Ids(r)|;
      forall j | 0 <= j < |r|
        ensures r'[j] == r[j]
      {
        SettledIsFixed(fields, r, incoming, j);
      }
      assert r' == r;
    }
  }
  /** The batch's records whose ids are not among `seen`, in batch order. */
  function Unmatched(seen: seq<string>, incoming: seq<OptionRecord>): (u: seq<OptionRecord>)
    ensures |u| <= |incoming|
    decreases |incoming|
  {
    if |incoming| == 0 then []
    else
      var n := incoming[|incoming| - 1];
      Unmatched(seen, incoming[..|incoming| - 1]) + (if n.id in seen then [] else [n])
  }

  /** Ids differ pairwise within the batch. */
  predicate DistinctIds(incoming: seq<OptionRecord>) {
    forall i, k :: 0 <= i < k < |incoming| ==> incoming[i].id != incoming[k].id
  }

  /** When the merge of all but the last record succeeds, the whole merge is one more `MergeOne`. */
  lemma MergeAllUnfold(fields: Fields, opts: seq<OptionRecord>, incoming: seq<OptionRecord>)
    requires |incoming| > 0 && MergeAll(fields, opts, incoming[..|incoming| - 1]).Ok?
    ensures MergeAll(fields, opts, incoming) ==
      MergeOne(fields, MergeAll(fields, opts, incoming[..|incoming| - 1]).value, incoming[|incoming| - 1])
  {
  }

  /** An id found neither among `opts` nor in `batch` is not among the ids of `opts + batch`. */
  lemma IdNotInConcat(opts: seq<OptionRecord>, batch: seq<OptionRecord>, id: string)
    requires id !in Ids(opts) && id !in Ids(batch)
    ensures id !in Ids(opts + batch)
  {
    forall k | 0 <= k < |opts + batch|
      ensures Ids(opts + batch)[k] != id
    {
      if k < |opts| {
        assert Ids(opts + batch)[k] == Ids(opts)[k];
      } else {
        assert Ids(opts + batch)[k] == Ids(batch)[k - |opts|];
      }
    }
  }

  /** A record of a batch with distinct ids has an id none of the records before it has. */
  lemma DistinctLast(incoming: seq<OptionRecord>)
    requires DistinctIds(incoming) && |incoming| > 0
    ensures DistinctIds(incoming[..|incoming| - 1])
    ensures incoming[|incoming| - 1].id !in Ids(incoming[..|incoming| - 1])
  {
    var prefix := incoming[..|incoming| - 1];
    forall k | 0 <= k < |prefix|
      ensures Ids(prefix)[k] != incoming[|incoming| - 1].id
    {
      assert prefix[k] == incoming[k];
    }
  }

  /** The unmatched records of a batch extended by `n`. */
  lemma UnmatchedAppend(seen: seq<string>, prefix: seq<OptionRecord>, n: OptionRecord)
    ensures Unmatched(seen, prefix + [n]) == Unmatched(seen, prefix) + (if n.id in seen then [] else [n])
  {
    assert (prefix + [n])[..|prefix|] == prefix;
  }

  /** A record whose id is among the first `|opts|` ids changes nothing after them. */
  lemma StoredIdKeepsTail(fields: Fields, opts: seq<OptionRecord>, acc: seq<OptionRecord>, n: OptionRecord)
    requires |opts| <= |acc| && Ids(acc)[..|opts|] == Ids(opts)
    requires n.id in Ids(opts) && MergeOne(fields, acc, n).Ok?
    ensures |MergeOne(fields, acc, n).value| == |acc|
    ensures MergeOne(fields, acc, n).value[|opts|..] == acc[|opts|..]
  {
    var k :| 0 <= k < |opts| && Ids(opts)[k] == n.id;
    assert Ids(acc)[k] == n.id;
    assert n.id in Ids(acc);
    assert FirstIndex(acc, n.id).value <= k;
  }

  /** A record whose id is neither stored nor earlier in the batch is appended. */
  lemma NewIdAppended(fields: Fields, opts: seq<OptionRecord>, acc: seq<OptionRecord>, prefix: seq<OptionRecord>, n: OptionRecord)
    requires |opts| <= |acc| && Ids(acc) == Ids(opts) + FreshIds(Ids(opts), prefix)
    requires n.id !in Ids(opts) && n.id !in Ids(prefix)
    ensures MergeOne(fields, acc, n) == Ok(acc + [n])
    ensures (acc + [n])[|opts|..] == acc[|opts|..] + [n]
  {
    assert n.id !in FreshIds(Ids(opts), prefix);
    IdNotInSeqConcat(Ids(opts), FreshIds(Ids(opts), prefix), n.id);
  }

  /** One step of `DistinctBatchAppendsUnmatched`: merging a record whose id the batch has not used yet. */
  lemma AppendsUnmatchedStep(fields: Fields, opts: seq<OptionRecord>, acc: seq<OptionRecord>, prefix: seq<OptionRecord>, n: OptionRecord)
    requires |opts| <= |acc| && Ids(acc) == Ids(opts) + FreshIds(Ids(opts), prefix)
    requires acc[|opts|..] == Unmatched(Ids(opts), prefix)
    requires n.id !in Ids(prefix)
    requires MergeOne(fields, acc, n).Ok?
    ensures var r := MergeOne(fields, acc, n).value;
      |opts| <= |r| && r[|opts|..] == Unmatched(Ids(opts), prefix + [n])
  {
    UnmatchedAppend(Ids(opts), prefix, n);
    if n.id in Ids(opts) {
      assert Ids(acc)[..|opts|] == Ids(opts);
      StoredIdKeepsTail(fields, opts, acc, n);
    } else {
      NewIdAppended(fields, opts, acc, prefix, n);
    }
  }

  /** A value in neither of two sequences is not in their concatenation. */
  lemma IdNotInSeqConcat(a: seq<string>, b: seq<string>, id: string)
    requires id !in a && id !in b
    ensures id !in a + b
  {
  }

  /**
   With pairwise distinct ids in the batch, the stored records keep their order at the front and
   the batch's unmatched records follow them, in batch order and exactly as sent.
   */
  lemma {:induction false} DistinctBatchAppendsUnmatched(fields: Fields, opts: seq<OptionRecord>, incoming: seq<OptionRecord>)
    requires DistinctIds(incoming)
    requires MergeAll(fields, opts, incoming).Ok?
    ensures var r := MergeAll(fields, opts, incoming).value;
      |opts| <= |r| && r[|opts|..] == Unmatched(Ids(opts), incoming)
    decreases |incoming|
  {
    if |incoming| > 0 {
      var prefix := incoming[..|incoming| - 1];
      var n := incoming[|incoming| - 1];
      MergeAllStep(fields, opts, incoming);
      DistinctLast(incoming);
      DistinctBatchAppendsUnmatched(fields, opts, prefix);
      AppendsUnmatchedStep(fields, opts, MergeAll(fields, opts, prefix).value, prefix, n);
      assert incoming == prefix + [n];
    }
  }

  /** A batch none of whose ids is stored keeps that property when its last record is dropped. */
  lemma NoneStoredBefore(opts: seq<OptionRecord>, incoming: seq<OptionRecord>, prefix: seq<OptionRecord>)
    requires |incoming| > 0 && prefix == incoming[..|incoming| - 1]
    requires forall i :: 0 <= i < |incoming| ==> incoming[i].id !in Ids(opts)
    ensures forall i :: 0 <= i < |prefix| ==> prefix[i].id !in Ids(opts)
  {
    forall i | 0 <= i < |prefix|
      ensures prefix[i].id !in Ids(opts)
    {
      assert prefix[i] == incoming[i];
    }
  }

  /** One step of `UnmatchedBatchIsAppended`: a record with a new id is appended as sent. */
  lemma AppendsNewStep(fields: Fields, opts: seq<OptionRecord>, prefix: seq<OptionRecord>, n: OptionRecord)
    requires n.id !in Ids(opts) && n.id !in Ids(prefix)
    requires MergeAll(fields, opts, prefix) == Ok(opts + prefix)
    ensures MergeAll(fields, opts, prefix + [n]) == Ok(opts + (prefix + [n]))
  {
    assert (prefix + [n])[..|prefix|] == prefix;
    MergeAllUnfold(fields, opts, prefix + [n]);
    IdNotInConcat(opts, prefix, n.id);
    assert opts + prefix + [n] == opts + (prefix + [n]);
  }

  /** A batch of new, pairwise distinct ids is appended whole, in batch order, and never fails. */
  lemma {:induction false} UnmatchedBatchIsAppended(fields: Fields, opts: seq<OptionRecord>, incoming: seq<OptionRecord>)
    requires DistinctIds(incoming)
    requires forall i :: 0 <= i < |incoming| ==> incoming[i].id !in Ids(opts)
    ensures MergeAll(fields, opts, incoming) == Ok(opts + incoming)
    decreases |incoming|
  {
    if |incoming| > 0 {
      var prefix := incoming[..|incoming| - 1];
      var n := incoming[|incoming| - 1];
      DistinctLast(incoming);
      NoneStoredBefore(opts, incoming, prefix);
      UnmatchedBatchIsAppended(fields, opts, prefix);
      assert n.id !in Ids(opts);
      AppendsNewStep(fields, opts, prefix, n);
      assert incoming == prefix + [n];
    } else {
      assert opts + incoming == opts;
    }
  }

  /**
   With `PercentageAndPrices`, a record without both prices whose id is already stored makes the
   whole merge fail with `KeyError`, whatever else the batch holds.
   */
  lemma {:induction false} PricelessMatchFails(opts: seq<OptionRecord>, incoming: seq<OptionRecord>, i: nat)
    requires i < |incoming| && !HasPrices(incoming[i]) && incoming[i].id in Ids(opts)
    ensures MergeAll(PercentageAndPrices, opts, incoming).Err?
    decreases |incoming|
  {
    var prefix := incoming[..|incoming| - 1];
    if i < |incoming| - 1 {
      assert prefix[i] == incoming[i];
      PricelessMatchFails(opts, prefix, i);
    } else if MergeAll(PercentageAndPrices, opts, prefix).Ok? {
      var acc := MergeAll(PercentageAndPrices, opts, prefix).value;
      assert Ids(acc)[..|opts|] == Ids(opts);
      assert incoming[i].id in Ids(acc);
    }
  }

  /** `existing_data.get('options', [])`: the stored list, or an empty one when there is none. */
  function StoredOptions(stored: StoredDoc): (opts: seq<OptionRecord>)
    ensures stored.Present? && stored.options.Some? ==> opts == stored.options.value
    ensures stored.Absent? || stored.options.None? ==> opts == []
  {
    match stored
    case Absent => []
    case Present(None) => []
    case Present(Some(o)) => o
  }

  /**
   `update_firestore_with_new_data(date, new_options)`: the document written back carries the
   date it was called with and the merged list; a `KeyError` means nothing is written.
   */
  function UpdateDocument(fields: Fields, date: string, stored: StoredDoc, incoming: seq<OptionRecord>): (r: Result<DayDoc, MergeError>)
    ensures r.Ok? ==> r.value.date == date
    ensures r.Ok? <==> MergeAll(fields, StoredOptions(stored), incoming).Ok?
    ensures r.Ok? ==> r.value.options == MergeAll(fields, StoredOptions(stored), incoming).value
  {
    match MergeAll(fields, StoredOptions(stored), incoming)
    case Err(e) => Err(e)
    case Ok(merged) => Ok(DayDoc(date, merged))
  }

  /** With no document stored yet, a batch of distinct ids is written exactly as sent. */
  lemma FirstWriteStoresBatch(fields: Fields, date: string, stored: StoredDoc, incoming: seq<OptionRecord>)
    requires stored.Absent? || stored.options.None?
    requires DistinctIds(incoming)
    ensures UpdateDocument(fields, date, stored, incoming) == Ok(DayDoc(date, incoming))
  {
    UnmatchedBatchIsAppended(fields, [], incoming);
    assert [] + incoming == incoming;
  }
}
