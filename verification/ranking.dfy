/**
 The pick records shared by the app and the widget (`Option` and `OptionsData` in both Swift
 files) and the ranking both surfaces apply before display: a sort by percentage, descending.
 */
module Ranking {

  /** One pick: an option id and its percentage (a Swift `Double`, modelled as a real). */
  datatype OptionPick = OptionPick(id: string, percentage: real)

  /** One day's document: its date label and its picks in the order they were stored. */
  datatype DailyOptions = DailyOptions(date: string, options: seq<OptionPick>)

  /** Non-increasing in percentage from left to right. */
  ghost predicate Descending(s: seq<OptionPick>) {
    forall i, j :: 0 <= i < j < |s| ==> s[i].percentage >= s[j].percentage
  }

  /** The percentage column of a list of picks. */
  function Percentages(s: seq<OptionPick>): (ps: seq<real>)
    ensures |ps| == |s|
    ensures forall i :: 0 <= i < |s| ==> ps[i] == s[i].percentage
  {
    seq(|s|, i requires 0 <= i < |s| => s[i].percentage)
  }

  /** Places `p` into a descending list, ahead of every pick whose percentage it equals or beats. */
  function Insert(p: OptionPick, s: seq<OptionPick>): (r: seq<OptionPick>)
    requires Descending(s)
    ensures Descending(r)
    ensures multiset(r) == multiset(s) + multiset{p}
    ensures forall x :: x in r ==> x == p || x in s
  {
    if |s| == 0 then [p]
    else if p.percentage >= s[0].percentage then [p] + s
    else
      DescendingTail(s);
      var rest := Insert(p, s[1..]);
      assert s == [s[0]] + s[1..];
      assert forall j :: 0 <= j < |rest| ==> s[0].percentage >= rest[j].percentage by {
        forall j | 0 <= j < |rest|
          ensures s[0].percentage >= rest[j].percentage
        {
          assert rest[j] in rest;
          if rest[j] != p {
            HeadBeatsTail(s, rest[j]);
          }
        }
      }
      ConsDescending(s[0], rest);
      [s[0]] + rest
  }

  /** The leader of a descending list is at least every pick behind it. */
  lemma HeadBeatsTail(s: seq<OptionPick>, x: OptionPick)
    requires Descending(s) && |s| > 0 && x in s[1..]
    ensures s[0].percentage >= x.percentage
  {
    var m :| 0 <= m < |s| - 1 && s[1..][m] == x;
    assert s[m + 1] == x;
  }

  /** A pick at least as high as every pick of a descending list can lead it. */
  lemma ConsDescending(h: OptionPick, t: seq<OptionPick>)
    requires Descending(t)
    requires forall j :: 0 <= j < |t| ==> h.percentage >= t[j].percentage
    ensures Descending([h] + t)
  {
    var r := [h] + t;
    forall i, j | 0 <= i < j < |r|
      ensures r[i].percentage >= r[j].percentage
    {
      assert r[j] == t[j - 1];
      if i > 0 {
        assert r[i] == t[i - 1];
      }
    }
  }

  /**
   `options.sorted { $0.percentage > $1.percentage }`: the same picks, highest percentage first.
   Swift does not promise any order among equal percentages; this model happens to keep the
   stored order, and nothing below relies on that.
   */
  function SortDescending(s: seq<OptionPick>): (r: seq<OptionPick>)
    ensures Descending(r)
    ensures multiset(r) == multiset(s)
    ensures |r| == |s|
  {
    if |s| == 0 then []
    else
      assert s == [s[0]] + s[1..];
      Insert(s[0], SortDescending(s[1..]))
  }
  /** The two leaders of descending arrangements of the same picks carry the same percentage. */
  lemma LeadersAgree(a: seq<OptionPick>, b: seq<OptionPick>)
    requires Descending(a) && Descending(b)
    requires multiset(a) == multiset(b) && |a| > 0
    ensures |b| > 0 && a[0].percentage == b[0].percentage
  {
    assert a[0] in multiset(b);
    assert b[0] in multiset(a);
  }

  /** Dropping one pick from a descending list leaves it descending. */
  lemma DropKeepsDescending(b: seq<OptionPick>, k: nat)
    requires Descending(b) && k < |b|
    ensures Descending(b[..k] + b[k+1..])
  {
    var b' := b[..k] + b[k+1..];
    forall i, j | 0 <= i < j < |b'|
      ensures b'[i].percentage >= b'[j].percentage
    {
      var i' := if i < k then i else i + 1;
      var j' := if j < k then j else j + 1;
      assert b'[i] == b[i'] && b'[j] == b[j'];
    }
  }

  /** Removing the same pick from two permutations of each other leaves permutations. */
  lemma DropMatchingLeader(a: seq<OptionPick>, b: seq<OptionPick>, k: nat)
    requires multiset(a) == multiset(b) && |a| > 0 && k < |b| && b[k] == a[0]
    ensures multiset(b[..k] + b[k+1..]) == multiset(a[1..])
  {
    assert b == b[..k] + [b[k]] + b[k+1..];
    assert multiset(b) == multiset(b[..k]) + multiset{b[k]} + multiset(b[k+1..]);
    assert multiset(b[..k] + b[k+1..]) == multiset(b[..k]) + multiset(b[k+1..]);
    assert a == [a[0]] + a[1..];
    assert multiset(a) == multiset{a[0]} + multiset(a[1..]);
    assert multiset(a[1..]) == multiset(a) - multiset{a[0]};
    assert multiset(b[..k]) + multiset(b[k+1..]) == multiset(b) - multiset{b[k]};
  }

  /**
   Dropping a pick that ties with the leader of a descending list only shifts equal percentages:
   the column is the leader's percentage followed by the column of what remains.
   */
  lemma DropLeaderTie(b: seq<OptionPick>, k: nat)
    requires Descending(b) && k < |b| && b[k].percentage == b[0].percentage
    ensures Percentages(b) == [b[0].percentage] + Percentages(b[..k] + b[k+1..])
  {
    var b' := b[..k] + b[k+1..];
    var lhs := Percentages(b);
    var rhs := [b[0].percentage] + Percentages(b');
    assert |lhs| == |rhs|;
    forall j | 0 <= j < |b|
      ensures lhs[j] == rhs[j]
    {
      if 0 < j <= k {
        assert b[j].percentage == b[0].percentage;
        assert b'[j - 1] == b[j - 1];
      } else if j > k {
        assert b'[j - 1] == b[j];
      }
    }
  }

  /**
   Tie order is immaterial: any two descending arrangements of the same picks show the same
   percentage in every position, so whatever order Swift's sort leaves equal picks in, the
   percentage column of the ranked list is the one `SortDescending` produces.
   */
  lemma {:induction false} RankedPercentagesAreUnique(a: seq<OptionPick>, b: seq<OptionPick>)
    requires Descending(a) && Descending(b)
    requires multiset(a) == multiset(b)
    ensures Percentages(a) == Percentages(b)
    decreases |a|
  {
    assert |a| == |multiset(a)| == |multiset(b)| == |b|;
    if |a| > 0 {
      LeadersAgree(a, b);
      var k := MatchingIndex(a, b);
      DropMatchingLeader(a, b, k);
      DropKeepsDescending(b, k);
      DescendingTail(a);
      RankedPercentagesAreUnique(a[1..], b[..k] + b[k+1..]);
      DropLeaderTie(b, k);
      PercentagesOfTail(a);
    }
  }

  /** A position of the second list that holds the first list's leader. */
  lemma MatchingIndex(a: seq<OptionPick>, b: seq<OptionPick>) returns (k: nat)
    requires multiset(a) == multiset(b) && |a| > 0
    ensures k < |b| && b[k] == a[0]
  {
    assert a[0] in multiset(b);
    k :| 0 <= k < |b| && b[k] == a[0];
  }

  /** The tail of a descending list is descending. */
  lemma DescendingTail(a: seq<OptionPick>)
    requires Descending(a) && |a| > 0
    ensures Descending(a[1..])
  {
    forall i, j | 0 <= i < j < |a| - 1
      ensures a[1..][i].percentage >= a[1..][j].percentage
    {
      assert a[1..][i] == a[i + 1] && a[1..][j] == a[j + 1];
    }
  }

  /** The percentage column is the leader's percentage followed by the tail's column. */
  lemma PercentagesOfTail(a: seq<OptionPick>)
    requires |a| > 0
    ensures Percentages(a) == [a[0].percentage] + Percentages(a[1..])
  {
  }

  /** `SortDescending` meets the ranking every surface displays, whatever comparison sort is used. */
  lemma SortAgreesWithAnyDescendingArrangement(s: seq<OptionPick>, shown: seq<OptionPick>)
    requires Descending(shown) && multiset(shown) == multiset(s)
    ensures Percentages(SortDescending(s)) == Percentages(shown)
  {
    RankedPercentagesAreUnique(SortDescending(s), shown);
  }
}
