/**
 * Join and rank: the search items are paired with the statistics entries by array
 * position, sorted by view count (most viewed first, a stable sort, so equal counts
 * keep their search order) and cut to the first three.
 */
module Ranking {
  import opened Wrappers

  /** One item of the search response: its video id and its snippet title. */
  datatype SearchItem = SearchItem(videoId: string, title: string)

  /** A search item with the view count the join gave it. */
  datatype Video = Video(videoId: string, title: string, viewCount: nat)

  /** How many videos a reply lists at most. */
  const TopCount := 3

  function Min(a: nat, b: nat): nat {
    if a <= b then a else b
  }

  /** The view count that statistics entry `i` supplies: 0 when the entry is
      missing (the response is shorter) or carries no view count. */
  function ViewCountAt(entries: seq<Option<nat>>, i: nat): nat {
    if i < |entries| && entries[i].Some? then entries[i].value else 0
  }

  /** The positional join: item i with the view count of statistics entry i. */
  function Join(items: seq<SearchItem>, entries: seq<Option<nat>>): (vs: seq<Video>)
    ensures |vs| == |items|
    ensures forall i :: 0 <= i < |vs| ==>
      vs[i].videoId == items[i].videoId && vs[i].title == items[i].title &&
      vs[i].viewCount == ViewCountAt(entries, i)
    ensures forall i :: |entries| <= i < |vs| ==> vs[i].viewCount == 0
  {
    if |items| == 0 then []
    else
      var n := |items| - 1;
      Join(items[..n], entries) + [Video(items[n].videoId, items[n].title, ViewCountAt(entries, n))]
  }

  /** Whether the video at position i is listed before the one at position j:
      more views first, and on equal views the earlier search position first. */
  predicate Before(vs: seq<Video>, i: nat, j: nat)
    requires i < |vs| && j < |vs|
  {
    vs[i].viewCount > vs[j].viewCount || (vs[i].viewCount == vs[j].viewCount && i < j)
  }

  predicate InRange(vs: seq<Video>, order: seq<nat>) {
    forall k :: 0 <= k < |order| ==> order[k] < |vs|
  }

  /** `order` lists positions of `vs`, each one strictly Before every later one. */
  predicate Ranked(vs: seq<Video>, order: seq<nat>) {
    && InRange(vs, order)
    && forall a, b :: 0 <= a < b < |order| ==> Before(vs, order[a], order[b])
  }

  /** The positions 0 .. n-1 in increasing order. */
  function Indices(n: nat): (r: seq<nat>)
    ensures |r| == n && forall k :: 0 <= k < n ==> r[k] == k
  {
    if n == 0 then [] else Indices(n - 1) + [n - 1]
  }

  /** Inserts position i into `order` ahead of the first position with fewer views. */
  function Insert(vs: seq<Video>, i: nat, order: seq<nat>): (r: seq<nat>)
    requires i < |vs| && InRange(vs, order)
    ensures |r| == |order| + 1 && InRange(vs, r)
    ensures multiset(r) == multiset(order) + multiset{i}
  {
    if |order| == 0 || vs[order[0]].viewCount < vs[i].viewCount then [i] + order
    else
      assert order == [order[0]] + order[1..];
      [order[0]] + Insert(vs, i, order[1..])
  }

  /** Dropping the head keeps an order ranked, and removes exactly the head. */
  lemma TailRanked(vs: seq<Video>, order: seq<nat>)
    requires Ranked(vs, order) && |order| > 0
    ensures Ranked(vs, order[1..])
    ensures multiset(order[1..]) == multiset(order) - multiset{order[0]}
  {
    var tail := order[1..];
    forall a, b | 0 <= a < b < |tail| ensures Before(vs, tail[a], tail[b]) {
      assert Before(vs, order[a + 1], order[b + 1]);
    }
    assert order == [order[0]] + tail;
  }

  /** Every later position of a ranked order comes after its head. */
  lemma AheadOfTail(vs: seq<Video>, order: seq<nat>, x: nat)
    requires Ranked(vs, order) && |order| > 0 && x in order[1..]
    ensures x < |vs| && Before(vs, order[0], x)
  {
    var p :| 0 <= p < |order| - 1 && order[1..][p] == x;
    assert Before(vs, order[0], order[p + 1]);
  }

  /** A position with more views than the head of a ranked order may go first. */
  lemma InsertInFront(vs: seq<Video>, i: nat, order: seq<nat>)
    requires i < |vs| && Ranked(vs, order)
    requires |order| == 0 || vs[order[0]].viewCount < vs[i].viewCount
    ensures Ranked(vs, [i] + order)
  {
    var r := [i] + order;
    forall a, b | 0 <= a < b < |r| ensures Before(vs, r[a], r[b]) {
      if a == 0 {
        assert b > 1 ==> Before(vs, order[0], order[b - 1]);
      } else {
        assert Before(vs, order[a - 1], order[b - 1]);
      }
    }
  }

  lemma {:induction false} InsertKeepsRanked(vs: seq<Video>, i: nat, order: seq<nat>)
    requires i < |vs| && Ranked(vs, order)
    requires forall k :: 0 <= k < |order| ==> order[k] < i
    ensures Ranked(vs, Insert(vs, i, order))
    decreases |order|
  {
    if |order| == 0 || vs[order[0]].viewCount < vs[i].viewCount {
      InsertInFront(vs, i, order);
    } else {
      var tail := order[1..];
      TailRanked(vs, order);
      InsertKeepsRanked(vs, i, tail);
      var t := Insert(vs, i, tail);
      var r := [order[0]] + t;
      assert Insert(vs, i, order) == r;
      forall a, b | 0 <= a < b < |r| ensures Before(vs, r[a], r[b]) {
        if a == 0 {
          var x := t[b - 1];
          assert x in multiset(tail) + multiset{i} by { assert x in multiset(t); }
          if x != i {
            AheadOfTail(vs, order, x);
          }
        } else {
          assert Before(vs, t[a - 1], t[b - 1]);
        }
      }
    }
  }

  /** A permutation of 0 .. n-1 lists only positions below n. */
  lemma IndicesBelow(order: seq<nat>, n: nat)
    requires multiset(order) == multiset(Indices(n))
    ensures forall k :: 0 <= k < |order| ==> order[k] < n
  {
    forall k | 0 <= k < |order| ensures order[k] < n {
      assert order[k] in multiset(Indices(n));
    }
  }

  /** The order a stable descending sort by view count puts the first n videos in:
      a ranked permutation of the positions 0 .. n-1. */
  function SortOrder(vs: seq<Video>, n: nat): (order: seq<nat>)
    requires n <= |vs|
    ensures |order| == n
    ensures multiset(order) == multiset(Indices(n))
    ensures Ranked(vs, order)
  {
    if n == 0 then []
    else
      var prev := SortOrder(vs, n - 1);
      IndicesBelow(prev, n - 1);
      InsertKeepsRanked(vs, n - 1, prev);
      assert Indices(n) == Indices(n - 1) + [n - 1];
      Insert(vs, n - 1, prev)
  }

  /** The videos in the given order. */
  function Arrange(vs: seq<Video>, order: seq<nat>): (r: seq<Video>)
    requires InRange(vs, order)
    ensures |r| == |order| && forall k :: 0 <= k < |order| ==> r[k] == vs[order[k]]
  {
    seq(|order|, k requires 0 <= k < |order| => vs[order[k]])
  }

  /** The stable descending sort by view count, then the first three. */
  function Rank(vs: seq<Video>): (top: seq<Video>)
    ensures |top| == Min(|vs|, TopCount)
  {
    var sorted := Arrange(vs, SortOrder(vs, |vs|));
    sorted[..Min(|sorted|, TopCount)]
  }

  /** The head of a ranked order is Before every other position in it. */
  lemma FirstIsAhead(vs: seq<Video>, order: seq<nat>, x: nat)
    requires Ranked(vs, order) && x in order
    ensures x < |vs| && (x == order[0] || Before(vs, order[0], x))
  {
    var p :| 0 <= p < |order| && order[p] == x;
    if p > 0 {
      assert Before(vs, order[0], order[p]);
    }
  }

  /** Two ranked orders of the same positions are the same order: the stable
      descending order is unique, so any stable sort yields SortOrder. */
  lemma {:induction false} RankedOrderUnique(vs: seq<Video>, o1: seq<nat>, o2: seq<nat>)
    requires Ranked(vs, o1) && Ranked(vs, o2)
    requires multiset(o1) == multiset(o2)
    ensures o1 == o2
    decreases |o1|
  {
    assert |o1| == |multiset(o1)| == |multiset(o2)| == |o2|;
    if |o1| > 0 {
      assert o2[0] in multiset(o1);
      assert o1[0] in multiset(o2);
      FirstIsAhead(vs, o1, o2[0]);
      FirstIsAhead(vs, o2, o1[0]);
      assert o1[0] == o2[0];
      TailRanked(vs, o1);
      TailRanked(vs, o2);
      RankedOrderUnique(vs, o1[1..], o2[1..]);
      assert o1 == [o1[0]] + o1[1..];
    }
  }

  /** What the ranked list is: the first min(n, 3) videos of the stable
      descending order, so it is ordered by view count, ties keep search order,
      every kept entry is a distinct search position, and no dropped video has
      more views than a kept one. */
  lemma RankSpec(vs: seq<Video>)
    ensures var top, order := Rank(vs), SortOrder(vs, |vs|);
      && |top| == Min(|vs|, TopCount)
      && (|vs| > 0 ==> |top| > 0)
      && (forall a, b :: 0 <= a < b < |top| ==> top[a].viewCount >= top[b].viewCount)
      && (forall k :: 0 <= k < |top| ==> top[k] == vs[order[k]])
      && (forall a, b :: 0 <= a < b < |top| && top[a].viewCount == top[b].viewCount ==> order[a] < order[b])
      && (forall a, b :: 0 <= a < b < |top| ==> order[a] != order[b])
      && (forall k, j :: 0 <= k < |top| <= j < |vs| ==> vs[order[j]].viewCount <= top[k].viewCount)
  {
    var top, order := Rank(vs), SortOrder(vs, |vs|);
    forall a, b | 0 <= a < b < |top| ensures top[a].viewCount >= top[b].viewCount {
      assert Before(vs, order[a], order[b]);
    }
    forall k, j | 0 <= k < |top| <= j < |vs| ensures vs[order[j]].viewCount <= top[k].viewCount {
      assert Before(vs, order[k], order[j]);
    }
  }

  /** Every search position is ranked somewhere; the ones outside the kept prefix
      have no more views than any kept video (top-k selection). */
  lemma DroppedNotAhead(vs: seq<Video>, j: nat)
    requires j < |vs|
    ensures var top, order := Rank(vs), SortOrder(vs, |vs|);
      (j !in order[..|top|] ==> forall k :: 0 <= k < |top| ==> vs[j].viewCount <= top[k].viewCount)
  {
    var top, order := Rank(vs), SortOrder(vs, |vs|);
    assert j in multiset(Indices(|vs|)) by { assert Indices(|vs|)[j] == j; }
    assert j in multiset(order);
    var p :| 0 <= p < |order| && order[p] == j;
    RankSpec(vs);
    assert forall q :: 0 <= q < |top| ==> order[..|top|][q] == order[q];
  }

  /** Any stable descending sort of the joined videos puts them in SortOrder. */
  lemma StableSortIsSortOrder(vs: seq<Video>, order: seq<nat>)
    requires Ranked(vs, order) && multiset(order) == multiset(Indices(|vs|))
    ensures order == SortOrder(vs, |vs|)
  {
    RankedOrderUnique(vs, order, SortOrder(vs, |vs|));
  }

  /** Three videos whose counts put the second first, the third next and the
      first last are listed in that order. */
  lemma ThreeVideoRank(vs: seq<Video>)
    requires |vs| == 3
    requires vs[1].viewCount > vs[2].viewCount > vs[0].viewCount
    ensures Rank(vs) == [vs[1], vs[2], vs[0]]
  {
    ThreeVideoRanked(vs);
    StableSortIsSortOrder(vs, [1, 2, 0]);
  }

  /** The order 1, 2, 0 of such three videos is ranked; kept apart from
      ThreeVideoRank so that each proof stays small. */
  lemma ThreeVideoRanked(vs: seq<Video>)
    requires |vs| == 3
    requires vs[1].viewCount > vs[2].viewCount > vs[0].viewCount
    ensures Ranked(vs, [1, 2, 0]) && multiset([1, 2, 0]) == multiset(Indices(|vs|))
  {
    var order: seq<nat> := [1, 2, 0];
    var indices := Indices(3);
    assert indices == [0, 1, 2];
    assert multiset(order) == multiset(indices);
    assert Before(vs, 1, 2) && Before(vs, 1, 0) && Before(vs, 2, 0);
    forall a, b | 0 <= a < b < 3 ensures Before(vs, order[a], order[b]) {
      assert (a == 0 && b == 1) || (a == 0 && b == 2) || (a == 1 && b == 2);
    }
  }

  /** Three items with counts 100, 300 and 200 are listed as the second, the
      third and the first. */
  lemma ThreeItemExample(items: seq<SearchItem>, entries: seq<Option<nat>>)
    requires items == [SearchItem("A", "T1"), SearchItem("B", "T2"), SearchItem("C", "T3")]
    requires entries == [Some(100), Some(300), Some(200)]
    ensures Rank(Join(items, entries))
      == [Video("B", "T2", 300), Video("C", "T3", 200), Video("A", "T1", 100)]
  {
    var vs := Join(items, entries);
    assert vs == [Video("A", "T1", 100), Video("B", "T2", 300), Video("C", "T3", 200)];
    ThreeVideoRank(vs);
  }
}
