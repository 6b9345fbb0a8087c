/**
 removeDuplicates.py: for every day, drop options that repeat another option of the same day
 key for key and value for value. The script goes through a Python `set`, so the order of what
 it keeps is not determined; `IsDedupOf` states what any order must satisfy, and `Dedupe` is one
 such order (first occurrences, in list order).
 */
module Dedupe {
  import opened Records

  /** No two positions hold the same record. */
  predicate NoRepeats(s: seq<OptionRecord>) {
    forall i, j :: 0 <= i < j < |s| ==> s[i] != s[j]
  }

  /** `r` is a possible output for `s`: each distinct record of `s` exactly once, and nothing else. */
  ghost predicate IsDedupOf(r: seq<OptionRecord>, s: seq<OptionRecord>) {
    NoRepeats(r) && (forall x :: x in r <==> x in s)
  }

  /** The first occurrence of each record, in list order. */
  function Dedupe(s: seq<OptionRecord>): (r: seq<OptionRecord>)
    ensures IsDedupOf(r, s)
    ensures |r| <= |s|
    decreases |s|
  {
    if |s| == 0 then []
    else
      var prev := Dedupe(s[..|s| - 1]);
      var last := s[|s| - 1];
      assert forall x :: x in s <==> x in s[..|s| - 1] || x == last by {
        assert s == s[..|s| - 1] + [last];
      }
      if last in prev then prev else prev + [last]
  }

  /** A repetition-free list counts each of its elements once. */
  lemma {:induction false} NoRepeatsCountsOnce(r: seq<OptionRecord>, x: OptionRecord)
    requires NoRepeats(r)
    ensures multiset(r)[x] == if x in r then 1 else 0
    decreases |r|
  {
    if |r| > 0 {
      var prev := r[..|r| - 1];
      assert r == prev + [r[|r| - 1]];
      assert NoRepeats(prev);
      NoRepeatsCountsOnce(prev, x);
      if x == r[|r| - 1] {
        assert x !in prev;
      }
    }
  }

  /**
   Whatever order the set hands the records back in, the outputs hold the same records the same
   number of times (once each): they differ only in order.
   */
  lemma AnyTwoOutputsArePermutations(r1: seq<OptionRecord>, r2: seq<OptionRecord>, s: seq<OptionRecord>)
    requires IsDedupOf(r1, s) && IsDedupOf(r2, s)
    ensures multiset(r1) == multiset(r2)
  {
    forall x
      ensures multiset(r1)[x] == multiset(r2)[x]
    {
      NoRepeatsCountsOnce(r1, x);
      NoRepeatsCountsOnce(r2, x);
    }
  }

  /** The kept records, counted: one of each distinct record, none of anything else. */
  lemma DedupeCountsOnce(s: seq<OptionRecord>, x: OptionRecord)
    ensures multiset(Dedupe(s))[x] == if x in s then 1 else 0
  {
    NoRepeatsCountsOnce(Dedupe(s), x);
  }

  /** A list without repeats is left as it is. */
  lemma {:induction false} DedupeKeepsRepeatFree(s: seq<OptionRecord>)
    requires NoRepeats(s)
    ensures Dedupe(s) == s
    decreases |s|
  {
    if |s| > 0 {
      var prev := s[..|s| - 1];
      assert NoRepeats(prev);
      DedupeKeepsRepeatFree(prev);
      assert s[|s| - 1] !in prev;
      assert prev + [s[|s| - 1]] == s;
    }
  }

  /** Running the script on its own output changes nothing. */
  lemma DedupeIsIdempotent(s: seq<OptionRecord>)
    ensures Dedupe(Dedupe(s)) == Dedupe(s)
  {
    DedupeKeepsRepeatFree(Dedupe(s));
  }

  /**
   Duplicates are whole records: two records with the same id but a different percentage are
   both kept.
   */
  lemma SameIdDifferentPercentageKept(a: OptionRecord, b: OptionRecord)
    requires a.id == b.id && a.percentage != b.percentage
    ensures a in Dedupe([a, b]) && b in Dedupe([a, b])
  {
  }

  /** removeDuplicates.py, lines 8-11: every day keeps its date and its place; only its options list changes. */
  function DedupeDays(days: seq<DayDoc>): (r: seq<DayDoc>)
    ensures |r| == |days|
    ensures forall d :: 0 <= d < |days| ==> r[d].date == days[d].date
    ensures forall d :: 0 <= d < |days| ==>
      IsDedupOf(r[d].options, days[d].options) && |r[d].options| <= |days[d].options|
  {
    seq(|days|, d requires 0 <= d < |days| => DayDoc(days[d].date, Dedupe(days[d].options)))
  }
}
