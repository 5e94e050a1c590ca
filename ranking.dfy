/** The "top 5 similar recipes" selection of the recipe page: the row of
    similarity scores of the selected recipe is enumerated, sorted by score
    in descending order with Python's stable sort, its first entry is
    skipped and the next (at most) five are kept. The scores themselves come
    from a TF-IDF / cosine-similarity library and are an input here. */
module Ranking {
  import opened Seqs

  /** One `(index, score)` pair of `enumerate(cosine_sim[index])`. */
  datatype Scored = Scored(index: nat, score: real)

  /** `list(enumerate(row))`. */
  function Enumerate(row: seq<real>): (r: seq<Scored>)
    ensures |r| == |row|
    ensures forall i :: 0 <= i < |r| ==> r[i] == Scored(i, row[i])
  {
    seq(|row|, i requires 0 <= i < |row| => Scored(i, row[i]))
  }

  /** `a` comes before `b` in a stable descending sort of an enumerated
      row: a higher score first, and among equal scores the lower index. */
  predicate Before(a: Scored, b: Scored)
  {
    a.score > b.score || (a.score == b.score && a.index < b.index)
  }

  predicate Ordered(s: seq<Scored>)
  {
    forall i, j :: 0 <= i < j < |s| ==> Before(s[i], s[j])
  }

  predicate IndicesIncreasing(s: seq<Scored>)
  {
    forall i, j :: 0 <= i < j < |s| ==> s[i].index < s[j].index
  }

  /** Inserts `x`, whose index is below every index in `s`, in front of the
      first entry it does not lose to. */
  function Insert(x: Scored, s: seq<Scored>): (r: seq<Scored>)
    requires Ordered(s)
    requires forall i :: 0 <= i < |s| ==> x.index < s[i].index
    ensures Ordered(r)
    ensures multiset(r) == multiset(s) + multiset{x}
    ensures |r| == |s| + 1
  {
    if s == [] then [x]
    else if s[0].score <= x.score then
      LeadsOrdered(x, s);
      [x] + s
    else
      var rest := Insert(x, s[1..]);
      InsertBehindHead(x, s, rest);
      [s[0]] + rest
  }

  lemma LeadsOrdered(x: Scored, s: seq<Scored>)
    requires Ordered(s) && s != [] && Before(x, s[0])
    ensures Ordered([x] + s)
  {
    forall j | 0 <= j < |s|
      ensures Before(x, s[j])
    {
      if j > 0 {
        assert Before(s[0], s[j]);
      }
    }
  }

  lemma InsertBehindHead(x: Scored, s: seq<Scored>, rest: seq<Scored>)
    requires Ordered(s) && s != [] && s[0].score > x.score
    requires Ordered(rest) && multiset(rest) == multiset(s[1..]) + multiset{x}
    ensures Ordered([s[0]] + rest)
    ensures multiset([s[0]] + rest) == multiset(s) + multiset{x}
  {
    forall j | 0 <= j < |rest|
      ensures Before(s[0], rest[j])
    {
      assert rest[j] in multiset(rest);
      if rest[j] != x {
        assert rest[j] in multiset(s[1..]);
        var k :| 0 <= k < |s[1..]| && s[1..][k] == rest[j];
        assert s[k + 1] == rest[j];
      }
    }
    assert s == [s[0]] + s[1..];
  }

  /** Python's `sorted(pairs, key=score, reverse=True)` on pairs listed in
      increasing index order, as an insertion sort. */
  function SortByScore(s: seq<Scored>): (r: seq<Scored>)
    requires IndicesIncreasing(s)
    ensures Ordered(r)
    ensures multiset(r) == multiset(s)
    ensures |r| == |s|
  {
    if s == [] then []
    else
      var rest := SortByScore(s[1..]);
      HeadIndexBelowRest(s, rest);
      assert s == [s[0]] + s[1..];
      Insert(s[0], rest)
  }

  /** The head of an index-increasing list has a lower index than every
      element of any rearrangement of its tail. */
  lemma HeadIndexBelowRest(s: seq<Scored>, rest: seq<Scored>)
    requires IndicesIncreasing(s) && s != [] && multiset(rest) == multiset(s[1..])
    ensures forall i :: 0 <= i < |rest| ==> s[0].index < rest[i].index
  {
    forall i | 0 <= i < |rest|
      ensures s[0].index < rest[i].index
    {
      assert rest[i] in multiset(s[1..]);
      var k :| 0 <= k < |s[1..]| && s[1..][k] == rest[i];
      assert s[k + 1] == rest[i];
    }
  }

  /** `sorted(enumerate(row), key=lambda x: x[1], reverse=True)`. */
  function Ranked(row: seq<real>): (r: seq<Scored>)
    ensures |r| == |row|
    ensures Ordered(r)
    ensures multiset(r) == multiset(Enumerate(row))
  {
    SortByScore(Enumerate(row))
  }

  /** Every ranked pair is a position of the row with its own score. */
  lemma InRanked(row: seq<real>, x: Scored)
    requires x in Ranked(row)
    ensures x.index < |row| && x.score == row[x.index]
  {
    assert x in multiset(Ranked(row));
    assert x in multiset(Enumerate(row));
  }

  /** Every position of the row is ranked somewhere. */
  lemma RankedHas(row: seq<real>, j: nat) returns (p: nat)
    requires j < |row|
    ensures p < |row| && Ranked(row)[p] == Scored(j, row[j])
  {
    assert Enumerate(row)[j] == Scored(j, row[j]);
    assert Scored(j, row[j]) in multiset(Ranked(row));
    p :| 0 <= p < |Ranked(row)| && Ranked(row)[p] == Scored(j, row[j]);
  }

  /** Two orderings of the same pairs that both respect `Before` are equal:
      the stable descending sort has exactly one possible outcome. */
  lemma {:induction false} OrderedUnique(a: seq<Scored>, b: seq<Scored>)
    requires Ordered(a) && Ordered(b)
    requires multiset(a) == multiset(b)
    ensures a == b
  {
    if a == [] {
      assert |multiset(b)| == 0;
    } else {
      assert a[0] in multiset(b);
      assert a[0] == b[0] by {
        if a[0] != b[0] {
          HeadBeforeAll(b, a[0]);
          HeadBeforeAll(a, b[0]);
          assert false;
        }
      }
      TailMultiset(a);
      TailMultiset(b);
      OrderedUnique(a[1..], b[1..]);
    }
  }

  /** The head of an ordered sequence comes before every other entry. */
  lemma HeadBeforeAll(a: seq<Scored>, x: Scored)
    requires Ordered(a) && x in multiset(a) && x != a[0]
    ensures Before(a[0], x)
  {
    var p :| 0 <= p < |a| && a[p] == x;
  }

  lemma TailMultiset<T>(a: seq<T>)
    requires a != []
    ensures multiset(a[1..]) == multiset(a) - multiset{a[0]}
  {
    assert a == [a[0]] + a[1..];
  }

  /** `Ranked` is the stable descending sort: any ordering of the
      enumerated row that puts higher scores first and keeps catalog order
      among equal scores is exactly `Ranked(row)`. */
  lemma RankedIsStableSort(row: seq<real>, t: seq<Scored>)
    requires Ordered(t) && multiset(t) == multiset(Enumerate(row))
    ensures t == Ranked(row)
  {
    OrderedUnique(t, Ranked(row));
  }

  /** `sorted_scores[1:6]`: the five best entries after the first. */
  function TopFive(row: seq<real>): (r: seq<Scored>)
    ensures |r| == Min(5, Max(|row| - 1, 0))
    ensures Ordered(r)
    ensures forall k :: 0 <= k < |r| ==> r[k].index < |row| && r[k].score == row[r[k].index]
    ensures forall k, l :: 0 <= k < l < |r| ==> r[k].index != r[l].index
  {
    var s := Ranked(row);
    if |s| <= 1 then []
    else
      RankedSlice(row, 1, Min(6, |s|));
      s[1..Min(6, |s|)]
  }

  /** A slice of the ranking is ordered, holds positions of the row with
      their own scores, and names no position twice. */
  lemma RankedSlice(row: seq<real>, lo: nat, hi: nat)
    requires lo <= hi <= |row|
    ensures var r := Ranked(row)[lo..hi];
      Ordered(r)
      && (forall k :: 0 <= k < |r| ==> r[k].index < |row| && r[k].score == row[r[k].index])
      && (forall k, l :: 0 <= k < l < |r| ==> r[k].index != r[l].index)
  {
    var s := Ranked(row);
    var r := s[lo..hi];
    forall k | 0 <= k < |r|
      ensures r[k].index < |row| && r[k].score == row[r[k].index]
    {
      assert r[k] == s[lo + k];
      InRanked(row, r[k]);
    }
    forall k, l | 0 <= k < l < |r|
      ensures Before(r[k], r[l])
    {
      assert r[k] == s[lo + k] && r[l] == s[lo + l];
    }
  }

  /** The entry that `TopFive` skips is the lowest-index position holding
      the maximal score; it is not necessarily the selected recipe. */
  lemma DroppedIsLowestIndexMaximum(row: seq<real>)
    requires |row| > 0
    ensures var d := Ranked(row)[0];
      d.index < |row| && d.score == row[d.index]
      && (forall j :: 0 <= j < |row| ==> row[j] <= d.score)
      && (forall j :: 0 <= j < d.index ==> row[j] < d.score)
      && (forall k :: 0 <= k < |TopFive(row)| ==> TopFive(row)[k].index != d.index)
  {
    var s := Ranked(row);
    var d := s[0];
    InRanked(row, d);
    forall j | 0 <= j < |row|
      ensures row[j] <= d.score && (j < d.index ==> row[j] < d.score)
    {
      var p := RankedHas(row, j);
      if p != 0 {
        assert Before(s[0], s[p]);
      }
    }
    forall k | 0 <= k < |TopFive(row)|
      ensures TopFive(row)[k].index != d.index
    {
      assert TopFive(row)[k] == s[k + 1];
      InRanked(row, s[k + 1]);
      assert Before(s[0], s[k + 1]);
    }
  }

  /** `d` is the lowest position holding the maximal score of `row`. */
  predicate LowestIndexMaximum(row: seq<real>, d: int)
  {
    0 <= d < |row| && (forall j :: 0 <= j < |row| ==> row[j] <= row[d])
    && (forall j :: 0 <= j < d ==> row[j] < row[d])
  }

  /** No entry kept by `TopFive` is the lowest-index maximum of the row. */
  lemma TopFiveSkipsLowestIndexMaximum(row: seq<real>, k: nat)
    requires k < |TopFive(row)|
    ensures !LowestIndexMaximum(row, TopFive(row)[k].index)
  {
    DroppedIsLowestIndexMaximum(row);
    var d := Ranked(row)[0].index;
    var j := TopFive(row)[k].index;
    assert j != d && row[j] <= row[d];
    if j < d {
      assert row[j] < row[d];
    }
  }

  /** Every position of the row is the skipped entry, one of the five
      kept, or scores no higher than anything kept. */
  lemma TopFiveIsTop(row: seq<real>, j: nat)
    requires j < |row|
    ensures var r := TopFive(row);
      j == Ranked(row)[0].index
      || (exists k :: 0 <= k < |r| && r[k].index == j)
      || (forall k :: 0 <= k < |r| ==> row[j] <= r[k].score)
  {
    var s := Ranked(row);
    var r := TopFive(row);
    var p := RankedHas(row, j);
    if p == 0 {
    } else if p < Min(6, |s|) {
      assert r[p - 1] == s[p];
    } else {
      forall k | 0 <= k < |r|
        ensures row[j] <= r[k].score
      {
        assert r[k] == s[k + 1];
        assert Before(s[k + 1], s[p]);
      }
    }
  }

  /** With two equal top scores the pair at index 0 is skipped, so a
      selected recipe at index 1 is offered as similar to itself. */
  lemma TopFiveCanKeepSelf()
    ensures TopFive([1.0, 1.0]) == [Scored(1, 1.0)]
  {
    var e := Enumerate([1.0, 1.0]);
    assert e == [Scored(0, 1.0), Scored(1, 1.0)];
    assert e[1..] == [Scored(1, 1.0)];
    assert SortByScore(e[1..][1..]) == [];
    assert SortByScore(e[1..]) == [Scored(1, 1.0)];
    assert Ranked([1.0, 1.0]) == [Scored(0, 1.0), Scored(1, 1.0)];
  }

  /** The selection follows the scores, not the positions: in a row of
      three whose last score lies between the other two, position 2 is
      kept ahead of position 1. */
  lemma TopFiveInScoreOrder(row: seq<real>)
    requires |row| == 3 && row[0] > row[2] > row[1]
    ensures TopFive(row) == [Scored(2, row[2]), Scored(1, row[1])]
  {
    var t := [Scored(0, row[0]), Scored(2, row[2]), Scored(1, row[1])];
    var e := Enumerate(row);
    assert e == [Scored(0, row[0]), Scored(1, row[1]), Scored(2, row[2])];
    assert multiset(t) == multiset(e);
    assert Ordered(t) by {
      assert Before(t[0], t[1]) && Before(t[0], t[2]) && Before(t[1], t[2]);
    }
    RankedIsStableSort(row, t);
    TopFiveIsSlice(row);
    assert Ranked(row)[1..Min(6, |row|)] == t[1..3];
  }

  /** The enumerated row without the selected position. */
  function Others(row: seq<real>, self: nat): (r: seq<Scored>)
    requires self < |row|
    ensures |r| == |row| - 1 && IndicesIncreasing(r)
    ensures multiset(r) + multiset{Scored(self, row[self])} == multiset(Enumerate(row))
    ensures forall k :: 0 <= k < |r| ==> r[k].index != self && r[k].index < |row| && r[k].score == row[r[k].index]
  {
    var e := Enumerate(row);
    assert e == e[..self] + [e[self]] + e[self + 1..];
    e[..self] + e[self + 1..]
  }

  /** The five best entries other than the selected one: what the skip of
      the first sorted entry is meant to achieve. */
  function TopFiveExcluding(row: seq<real>, self: nat): (r: seq<Scored>)
    requires self < |row|
    ensures |r| == Min(5, |row| - 1)
    ensures Ordered(r)
    ensures forall k :: 0 <= k < |r| ==> r[k].index != self && r[k].index < |row| && r[k].score == row[r[k].index]
    ensures forall k, l :: 0 <= k < l < |r| ==> r[k].index != r[l].index
  {
    var o := Others(row, self);
    var s := SortByScore(o);
    var r := s[..Min(5, |s|)];
    forall k | 0 <= k < |r|
      ensures r[k].index != self && r[k].index < |row| && r[k].score == row[r[k].index]
    {
      assert r[k] == s[k] && s[k] in multiset(o);
    }
    r
  }

  /** Every other position of the row is one of the five kept, or scores no
      higher than anything kept: the corrected selection keeps the best. */
  lemma TopFiveExcludingIsTop(row: seq<real>, self: nat, j: nat)
    requires self < |row| && j < |row| && j != self
    ensures var r := TopFiveExcluding(row, self);
      (exists k :: 0 <= k < |r| && r[k].index == j)
      || (forall k :: 0 <= k < |r| ==> row[j] <= r[k].score)
  {
    var o := Others(row, self);
    var s := SortByScore(o);
    var r := TopFiveExcluding(row, self);
    var x := Scored(j, row[j]);
    assert Enumerate(row)[j] == x;
    assert x in multiset(Enumerate(row));
    assert x in multiset(o);
    assert x in s;
    var p :| 0 <= p < |s| && s[p] == x;
    if p < Min(5, |s|) {
      assert r[p] == s[p];
    } else {
      forall k | 0 <= k < |r|
        ensures row[j] <= r[k].score
      {
        assert r[k] == s[k];
        assert Before(s[k], s[p]);
      }
    }
  }

  /** When the selected recipe is the lowest-index maximum of its row (for
      instance, the only entry with similarity 1.0), skipping the first
      sorted entry is the same as excluding the selected recipe. */
  lemma TopFiveAgreesWhenSelfLeads(row: seq<real>, self: nat)
    requires self < |row| && Ranked(row)[0].index == self
    ensures TopFiveExcluding(row, self) == TopFive(row)
  {
    var s := Ranked(row);
    var o := SortByScore(Others(row, self));
    RestIsSortedOthers(row, self);
    TopFiveIsSlice(row);
    TopFiveExcludingIsPrefix(row, self);
    assert o == s[1..];
  }

  lemma TopFiveIsSlice(row: seq<real>)
    ensures |row| > 1 ==> TopFive(row) == Ranked(row)[1..Min(6, |row|)]
    ensures |row| <= 1 ==> TopFive(row) == []
  {
  }

  lemma TopFiveExcludingIsPrefix(row: seq<real>, self: nat)
    requires self < |row|
    ensures TopFiveExcluding(row, self) == SortByScore(Others(row, self))[..Min(5, |row| - 1)]
  {
  }

  lemma RestIsSortedOthers(row: seq<real>, self: nat)
    requires self < |row| && Ranked(row)[0].index == self
    ensures SortByScore(Others(row, self)) == Ranked(row)[1..]
  {
    var s := Ranked(row);
    InRanked(row, s[0]);
    assert s[0] == Scored(self, row[self]);
    TailMultiset(s);
    assert multiset(Others(row, self)) == multiset(Enumerate(row)) - multiset{s[0]};
    assert Ordered(s[1..]);
    OrderedUnique(SortByScore(Others(row, self)), s[1..]);
  }

  /** A selected recipe whose score beats every other entry of its row is
      the one skipped. */
  lemma UniqueMaximumLeads(row: seq<real>, self: nat)
    requires self < |row|
    requires forall j :: 0 <= j < |row| && j != self ==> row[j] < row[self]
    ensures Ranked(row)[0].index == self
  {
    DroppedIsLowestIndexMaximum(row);
  }
}
