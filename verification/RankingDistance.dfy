/** Ranking distance: the normalized Kendall-tau distance of two orders of the same items. */
module RankingDistance {
  import opened Common

  /** The position `{x: i}` records while enumerating `s`: the last one. */
  function Position(s: seq<string>, x: string): (i: nat)
    requires x in s
    ensures i < |s| && s[i] == x
    decreases |s|
  {
    if s[|s| - 1] == x then |s| - 1 else Position(s[..|s| - 1], x)
  }

  /** Discordant partners of `e[i]` among `e[j..]`. */
  function RowDiscord(p: seq<string>, e: seq<string>, i: nat, j: nat): nat
    requires i < |e| && j <= |e| && forall k :: 0 <= k < |e| ==> e[k] in p
    decreases |e| - j
  {
    if j == |e| then 0
    else (if Position(p, e[i]) > Position(p, e[j]) then 1 else 0) + RowDiscord(p, e, i, j + 1)
  }

  /** Discordant pairs whose first item is in `e[i..]`. */
  function Discord(p: seq<string>, e: seq<string>, i: nat): nat
    requires i <= |e| && forall k :: 0 <= k < |e| ==> e[k] in p
    decreases |e| - i
  {
    if i == |e| then 0 else RowDiscord(p, e, i, i + 1) + Discord(p, e, i + 1)
  }

  /** `d_ranking`: worst when the answer is no list or lists other items. */
  function DRanking(provided: Option<seq<string>>, expected: seq<string>): real {
    if provided.None? || multiset(provided.value) != multiset(expected) then 1.0
    else
      var p, n := provided.value, |expected|;
      assert forall k :: 0 <= k < n ==> expected[k] in multiset(expected);
      if n < 2 then 0.0 else Discord(p, expected, 0) as real / ((n * (n - 1)) as real / 2.0)
  }

  // ---------------------------------------------------------------- orders of the same items

  ghost predicate Distinct(s: seq<string>) {
    forall i, j :: 0 <= i < j < |s| ==> s[i] != s[j]
  }

  /** Two orders of the same distinct items. */
  ghost predicate SameItems(p: seq<string>, e: seq<string>) {
    && Distinct(p) && Distinct(e) && |p| == |e|
    && (forall x :: x in p <==> x in e)
  }

  lemma DistinctCount(s: seq<string>, x: string)
    requires Distinct(s)
    ensures multiset(s)[x] == if x in s then 1 else 0
    decreases |s|
  {
    if s != [] {
      var n := |s| - 1;
      assert s == s[..n] + [s[n]];
      DistinctCount(s[..n], x);
    }
  }

  /** On distinct lists, listing the same items is what `sorted(...) == sorted(...)` tests. */
  lemma SameItemsIsMultisetEquality(p: seq<string>, e: seq<string>)
    requires Distinct(p) && Distinct(e)
    ensures multiset(p) == multiset(e) <==> SameItems(p, e)
  {
    if multiset(p) == multiset(e) {
      assert |p| == |multiset(p)| == |multiset(e)| == |e|;
      forall x ensures x in p <==> x in e {
        assert x in p <==> x in multiset(p);
        assert x in e <==> x in multiset(e);
      }
    }
    if SameItems(p, e) {
      forall x ensures multiset(p)[x] == multiset(e)[x] {
        DistinctCount(p, x);
        DistinctCount(e, x);
      }
    }
  }

  lemma PositionIs(s: seq<string>, i: nat)
    requires Distinct(s) && i < |s|
    ensures Position(s, s[i]) == i
  {
  }

  /** Item `x` comes before item `y`. */
  ghost predicate Before(s: seq<string>, x: string, y: string) {
    x in s && y in s && Position(s, x) < Position(s, y)
  }

  // ---------------------------------------------------------------- counting pairs as a set

  /** Pairs that `e` and `p` order differently, oriented by `e`, first item in `e[i..]`. */
  ghost function Inversions(p: seq<string>, e: seq<string>, i: nat): set<(string, string)> {
    set k, m | 0 <= i <= k < m < |e| && Before(p, e[m], e[k]) :: (e[k], e[m])
  }

  ghost function RowInversions(p: seq<string>, e: seq<string>, i: nat, j: nat): set<(string, string)>
    requires i < |e|
  {
    set m | 0 <= j <= m < |e| && Before(p, e[m], e[i]) :: (e[i], e[m])
  }

  lemma RowStep(p: seq<string>, e: seq<string>, i: nat, j: nat)
    requires Distinct(e) && i < |e| && j < |e|
    ensures (e[i], e[j]) !in RowInversions(p, e, i, j + 1)
    ensures RowInversions(p, e, i, j) ==
            RowInversions(p, e, i, j + 1) + (if Before(p, e[j], e[i]) then {(e[i], e[j])} else {})
  {
    forall m | j + 1 <= m < |e| ensures e[m] != e[j] {
    }
  }

  lemma {:induction false} RowCount(p: seq<string>, e: seq<string>, i: nat, j: nat)
    requires SameItems(p, e) && i < |e| && j <= |e|
    ensures |RowInversions(p, e, i, j)| == RowDiscord(p, e, i, j)
    decreases |e| - j
  {
    if j == |e| {
      assert RowInversions(p, e, i, j) == {};
    } else {
      RowCount(p, e, i, j + 1);
      RowStep(p, e, i, j);
    }
  }

  lemma {:induction false} PairCount(p: seq<string>, e: seq<string>, i: nat)
    requires SameItems(p, e) && i <= |e|
    ensures |Inversions(p, e, i)| == Discord(p, e, i)
    decreases |e| - i
  {
    if i == |e| {
      assert Inversions(p, e, i) == {};
    } else {
      PairCount(p, e, i + 1);
      RowAndRest(p, e, i);
    }
  }

  lemma RowAndRest(p: seq<string>, e: seq<string>, i: nat)
    requires SameItems(p, e) && i < |e|
    ensures |Inversions(p, e, i)| == RowDiscord(p, e, i, i + 1) + |Inversions(p, e, i + 1)|
  {
    RowCount(p, e, i, i + 1);
    PairStep(p, e, i);
  }

  lemma PairStep(p: seq<string>, e: seq<string>, i: nat)
    requires Distinct(e) && i < |e|
    ensures |Inversions(p, e, i)| == |RowInversions(p, e, i, i + 1)| + |Inversions(p, e, i + 1)|
  {
    var row, rest := RowInversions(p, e, i, i + 1), Inversions(p, e, i + 1);
    assert Inversions(p, e, i) == row + rest;
    forall q | q in row ensures q !in rest {
      assert q.0 == e[i];
    }
  }

  lemma InversionIff(p: seq<string>, e: seq<string>, x: string, y: string)
    requires SameItems(p, e)
    ensures (x, y) in Inversions(p, e, 0) <==> Before(e, x, y) && Before(p, y, x)
  {
    if (x, y) in Inversions(p, e, 0) {
      var k, m :| 0 <= k < m < |e| && Before(p, e[m], e[k]) && (x, y) == (e[k], e[m]);
      PositionIs(e, k);
      PositionIs(e, m);
    }
    if Before(e, x, y) && Before(p, y, x) {
      var k, m := Position(e, x), Position(e, y);
      assert e[k] == x && e[m] == y;
    }
  }

  // ---------------------------------------------------------------- symmetry

  ghost function Swapped(s: set<(string, string)>): set<(string, string)> {
    set q | q in s :: (q.1, q.0)
  }

  lemma SwappedIff(s: set<(string, string)>, x: string, y: string)
    ensures (x, y) in Swapped(s) <==> (y, x) in s
  {
    if (x, y) in Swapped(s) {
      var q :| q in s && (q.1, q.0) == (x, y);
      assert q == (y, x);
    }
  }

  lemma {:induction false} SwappedCard(s: set<(string, string)>)
    ensures |Swapped(s)| == |s|
    decreases |s|
  {
    if s != {} {
      var q :| q in s;
      SwappedCard(s - {q});
      assert Swapped(s) == Swapped(s - {q}) + {(q.1, q.0)};
    }
  }

  lemma InversionsSymmetric(p: seq<string>, e: seq<string>)
    requires SameItems(p, e)
    ensures |Inversions(p, e, 0)| == |Inversions(e, p, 0)|
  {
    forall x, y ensures (x, y) in Inversions(e, p, 0) <==> (y, x) in Inversions(p, e, 0) {
      InversionIff(p, e, y, x);
      InversionIff(e, p, x, y);
    }
    var s := Inversions(p, e, 0);
    forall q ensures q in Inversions(e, p, 0) <==> q in Swapped(s) {
      SwappedIff(s, q.0, q.1);
      assert q == (q.0, q.1);
    }
    assert Inversions(e, p, 0) == Swapped(s);
    SwappedCard(s);
  }

  // ---------------------------------------------------------------- triangle

  /** A pair two orders disagree on is one on which either disagrees with any third order. */
  lemma InversionsTriangle(p: seq<string>, q: seq<string>, r: seq<string>)
    requires SameItems(p, q) && SameItems(q, r)
    ensures |Inversions(p, r, 0)| <= |Inversions(p, q, 0)| + |Inversions(q, r, 0)|
  {
    var both := Inversions(p, q, 0) + Inversions(q, r, 0);
    forall t | t in Inversions(p, r, 0) ensures t in both {
      var (x, y) := t;
      InversionIff(p, r, x, y);
      InversionIff(p, q, x, y);
      InversionIff(q, r, x, y);
      assert Position(q, x) != Position(q, y);
    }
    SubsetCard(Inversions(p, r, 0), both);
  }

  // ---------------------------------------------------------------- reversal

  function Reversed(s: seq<string>): (r: seq<string>)
    ensures |r| == |s| && forall k :: 0 <= k < |s| ==> r[k] == s[|s| - 1 - k]
  {
    seq(|s|, k requires 0 <= k < |s| => s[|s| - 1 - k])
  }

  lemma ReversedSame(p: seq<string>, e: seq<string>)
    requires SameItems(p, e)
    ensures SameItems(Reversed(e), e) && SameItems(p, Reversed(e)) && Reversed(Reversed(e)) == e
  {
    forall x | x in e ensures x in Reversed(e) {
      var k :| 0 <= k < |e| && e[k] == x;
      assert Reversed(e)[|e| - 1 - k] == x;
    }
  }

  lemma DistinctReversed(e: seq<string>)
    requires Distinct(e)
    ensures Distinct(Reversed(e))
  {
    var r, n := Reversed(e), |e|;
    forall i, j | 0 <= i < j < n ensures r[i] != r[j] {
      assert e[n - 1 - j] != e[n - 1 - i];
    }
  }

  lemma PositionReversed(e: seq<string>, x: string)
    requires Distinct(e) && x in e && x in Reversed(e)
    ensures Position(Reversed(e), x) == |e| - 1 - Position(e, x)
  {
    DistinctReversed(e);
    PositionIs(Reversed(e), |e| - 1 - Position(e, x));
  }

  lemma BeforeReversed(e: seq<string>, x: string, y: string)
    requires Distinct(e)
    ensures Before(Reversed(e), x, y) <==> Before(e, y, x)
  {
    ReversedSame(e, e);
    if x in e && y in e {
      PositionReversed(e, x);
      PositionReversed(e, y);
    }
  }

  lemma {:induction false} RowOfReversed(e: seq<string>, i: nat, j: nat)
    requires Distinct(e) && i < j <= |e| && SameItems(Reversed(e), e)
    ensures RowDiscord(Reversed(e), e, i, j) == |e| - j
    decreases |e| - j
  {
    if j < |e| {
      RowOfReversed(e, i, j + 1);
      PositionReversed(e, e[i]);
      PositionReversed(e, e[j]);
      PositionIs(e, i);
      PositionIs(e, j);
    }
  }

  /** The reversed order disagrees on every pair. */
  lemma {:induction false} DiscordOfReversed(e: seq<string>, i: nat)
    requires Distinct(e) && i <= |e| && SameItems(Reversed(e), e)
    ensures 2 * Discord(Reversed(e), e, i) == (|e| - i) * (|e| - i - 1)
    decreases |e| - i
  {
    if i < |e| {
      RowOfReversed(e, i, i + 1);
      DiscordOfReversed(e, i + 1);
      var k := |e| - i - 1;
      assert 2 * k + k * (k - 1) == (k + 1) * k;
    }
  }

  lemma PairComplement(p: seq<string>, e: seq<string>, x: string, y: string)
    requires SameItems(p, e) && SameItems(Reversed(e), e) && SameItems(p, Reversed(e))
    ensures (x, y) in Inversions(Reversed(e), e, 0) <==>
            (x, y) in Inversions(p, e, 0) || (y, x) in Inversions(p, Reversed(e), 0)
    ensures !((x, y) in Inversions(p, e, 0) && (y, x) in Inversions(p, Reversed(e), 0))
  {
    var r := Reversed(e);
    InversionIff(p, e, x, y);
    InversionIff(p, r, y, x);
    InversionIff(r, e, x, y);
    BeforeReversed(e, x, y);
    BeforeReversed(e, y, x);
    if x in p && y in p && Position(p, x) == Position(p, y) {
      assert x == y;
    }
  }

  /** An order disagrees with `e` on exactly the pairs on which it agrees with `e` reversed. */
  lemma InversionsComplement(p: seq<string>, e: seq<string>)
    requires SameItems(p, e)
    ensures SameItems(Reversed(e), e) && SameItems(p, Reversed(e))
    ensures |Inversions(p, e, 0)| + |Inversions(p, Reversed(e), 0)| == |Inversions(Reversed(e), e, 0)|
  {
    ReversedSame(p, e);
    var r := Reversed(e);
    var s, t, all := Inversions(p, e, 0), Inversions(p, r, 0), Inversions(r, e, 0);
    var u := Swapped(t);
    forall x, y
      ensures (x, y) in all <==> (x, y) in s || (x, y) in u
      ensures !((x, y) in s && (x, y) in u)
    {
      PairComplement(p, e, x, y);
      SwappedIff(t, x, y);
    }
    forall q ensures q in all <==> q in s + u {
      assert q == (q.0, q.1);
    }
    assert all == s + u;
    forall q | q in s ensures q !in u {
      assert q == (q.0, q.1);
    }
    assert s !! u;
    SwappedCard(t);
  }

  // ---------------------------------------------------------------- zero only for equal orders

  /** Without inversions the positions of `e`'s items in `p` increase, so they are 0, 1, 2, ... */
  lemma {:induction false} PositionsAtLeast(p: seq<string>, e: seq<string>, k: nat)
    requires SameItems(p, e) && k < |e|
    requires forall i, j :: 0 <= i < j < |e| ==> Position(p, e[i]) < Position(p, e[j])
    ensures Position(p, e[k]) >= k
    decreases k
  {
    if k > 0 {
      PositionsAtLeast(p, e, k - 1);
    }
  }

  lemma {:induction false} PositionsAtMost(p: seq<string>, e: seq<string>, k: nat)
    requires SameItems(p, e) && k < |e|
    requires forall i, j :: 0 <= i < j < |e| ==> Position(p, e[i]) < Position(p, e[j])
    ensures Position(p, e[k]) <= k
    decreases |e| - k
  {
    if k + 1 < |e| {
      PositionsAtMost(p, e, k + 1);
    }
  }

  lemma NoInversionsMeansEqual(p: seq<string>, e: seq<string>)
    requires SameItems(p, e)
    ensures Inversions(p, e, 0) == {} <==> p == e
  {
    if Inversions(p, e, 0) == {} {
      forall i, j | 0 <= i < j < |e| ensures Position(p, e[i]) < Position(p, e[j]) {
        assert (e[i], e[j]) !in Inversions(p, e, 0);
        PositionIs(e, i);
        PositionIs(e, j);
        InversionIff(p, e, e[i], e[j]);
        assert Position(p, e[i]) != Position(p, e[j]);
      }
      forall k | 0 <= k < |e| ensures p[k] == e[k] {
        PositionsAtLeast(p, e, k);
        PositionsAtMost(p, e, k);
      }
    }
    if p == e {
      forall q ensures q !in Inversions(p, e, 0) {
        InversionIff(p, e, q.0, q.1);
      }
    }
  }

  // ---------------------------------------------------------------- the theorems

  lemma AllPairsCount(e: seq<string>)
    requires Distinct(e)
    ensures SameItems(Reversed(e), e)
    ensures 2 * |Inversions(Reversed(e), e, 0)| == |e| * (|e| - 1)
  {
    ReversedSame(e, e);
    PairCount(Reversed(e), e, 0);
    DiscordOfReversed(e, 0);
  }

  lemma DRankingValue(p: seq<string>, e: seq<string>)
    requires SameItems(p, e) && |e| >= 2
    ensures DRanking(Some(p), e) == Discord(p, e, 0) as real / ((|e| * (|e| - 1)) as real / 2.0)
  {
    SameItemsIsMultisetEquality(p, e);
  }

  lemma HalfOfProduct(d: nat, n: nat)
    requires n >= 2 && 2 * d == n * (n - 1)
    ensures d > 0 && d as real == (n * (n - 1)) as real / 2.0
  {
    var m := n * (n - 1);
    assert m > 0;
    assert m as real == 2.0 * d as real;
  }

  /** On at least two distinct items, the distance is the share of pairs ordered differently. */
  lemma DRankingCounts(p: seq<string>, e: seq<string>)
    requires SameItems(p, e) && |e| >= 2
    ensures SameItems(Reversed(e), e)
    ensures |Inversions(Reversed(e), e, 0)| > 0
    ensures DRanking(Some(p), e) == |Inversions(p, e, 0)| as real / |Inversions(Reversed(e), e, 0)| as real
  {
    DRankingValue(p, e);
    PairCount(p, e, 0);
    AllPairsCount(e);
    HalfOfProduct(|Inversions(Reversed(e), e, 0)|, |e|);
  }

  /** The number of pairs depends on the number of items only. */
  lemma AllPairsSame(e: seq<string>, f: seq<string>)
    requires SameItems(e, f)
    ensures |Inversions(Reversed(e), e, 0)| == |Inversions(Reversed(f), f, 0)|
  {
    AllPairsCount(e);
    AllPairsCount(f);
  }

  lemma ShareFacts(s: nat, t: nat, all: nat)
    requires all > 0 && s + t == all
    ensures 0.0 <= s as real / all as real <= 1.0
    ensures s as real / all as real + t as real / all as real == 1.0
    ensures s as real / all as real == 0.0 <==> s == 0
    ensures s as real / all as real == 1.0 <==> t == 0
  {
    var x, y, n := s as real, t as real, all as real;
    assert x / n + y / n == (x + y) / n == 1.0;
    assert x / n == 0.0 <==> x == 0.0;
    assert y / n == 0.0 <==> y == 0.0;
    assert x / n >= 0.0 && y / n >= 0.0;
  }

  /** Distances to an order and to its reverse add up to one; zero means the same order and
      one means the reverse. */
  lemma DRankingIsKendallTau(p: seq<string>, e: seq<string>)
    requires SameItems(p, e) && |e| >= 2
    ensures 0.0 <= DRanking(Some(p), e) <= 1.0
    ensures DRanking(Some(p), e) == 0.0 <==> p == e
    ensures DRanking(Some(p), e) == 1.0 <==> p == Reversed(e)
    ensures DRanking(Some(p), e) + DRanking(Some(p), Reversed(e)) == 1.0
    ensures DRanking(Some(p), e) == DRanking(Some(e), p)
  {
    ReversedSame(p, e);
    DRankingCounts(p, e);
    DRankingCounts(p, Reversed(e));
    DRankingCounts(e, p);
    AllPairsSame(p, e);
    AllPairsSame(e, Reversed(e));
    InversionsComplement(p, e);
    InversionsSymmetric(p, e);
    NoInversionsMeansEqual(p, e);
    NoInversionsMeansEqual(p, Reversed(e));
    ShareFacts(|Inversions(p, e, 0)|, |Inversions(p, Reversed(e), 0)|, |Inversions(Reversed(e), e, 0)|);
  }

  lemma ShareSum(a: nat, b: nat, c: nat, all: nat)
    requires all > 0 && a <= b + c
    ensures a as real / all as real <= b as real / all as real + c as real / all as real
  {
    var x, y, z, n := a as real, b as real, c as real, all as real;
    assert y / n + z / n == (y + z) / n;
    assert (y + z) / n - x / n == (y + z - x) / n;
  }

  lemma DRankingTriangle(p: seq<string>, q: seq<string>, r: seq<string>)
    requires SameItems(p, q) && SameItems(q, r) && |r| >= 2
    ensures DRanking(Some(p), r) <= DRanking(Some(p), q) + DRanking(Some(q), r)
  {
    DRankingCounts(p, r);
    DRankingCounts(p, q);
    DRankingCounts(q, r);
    AllPairsSame(q, r);
    InversionsTriangle(p, q, r);
    ShareSum(|Inversions(p, r, 0)|, |Inversions(p, q, 0)|, |Inversions(q, r, 0)|, |Inversions(Reversed(r), r, 0)|);
  }

  // ---------------------------------------------------------------- other lists

  /** An answer that is no list, or lists other items, is worst; fewer than two items agree. */
  lemma DRankingOfOtherItems(provided: Option<seq<string>>, expected: seq<string>)
    ensures provided.None? ==> DRanking(provided, expected) == 1.0
    ensures provided.Some? && multiset(provided.value) != multiset(expected) ==> DRanking(provided, expected) == 1.0
    ensures provided.Some? && multiset(provided.value) == multiset(expected) && |expected| < 2 ==>
      DRanking(provided, expected) == 0.0
  {
  }

  /** Equal items stand side by side. */
  ghost predicate Grouped(s: seq<string>) {
    forall i, j, k :: 0 <= i < j < k < |s| && s[i] == s[k] ==> s[j] == s[i]
  }

  ghost predicate Discordant(p: seq<string>, e: seq<string>, i: int, j: int) {
    0 <= i < j < |e| && e[i] in p && e[j] in p && Position(p, e[i]) > Position(p, e[j])
  }

  lemma {:induction false} RowIsZero(p: seq<string>, e: seq<string>, i: nat, j: nat)
    requires i < |e| && j <= |e| && i < j && forall k :: 0 <= k < |e| ==> e[k] in p
    ensures RowDiscord(p, e, i, j) == 0 <==> forall m :: j <= m < |e| ==> !Discordant(p, e, i, m)
    decreases |e| - j
  {
    if j < |e| {
      RowIsZero(p, e, i, j + 1);
      assert Discordant(p, e, i, j) <==> Position(p, e[i]) > Position(p, e[j]);
    }
  }

  lemma {:induction false} DiscordIsZero(p: seq<string>, e: seq<string>, i: nat)
    requires i <= |e| && forall k :: 0 <= k < |e| ==> e[k] in p
    ensures Discord(p, e, i) == 0 <==> forall m, n :: i <= m < n < |e| ==> !Discordant(p, e, m, n)
    decreases |e| - i
  {
    if i < |e| {
      RowIsZero(p, e, i, i + 1);
      DiscordIsZero(p, e, i + 1);
    }
  }

  lemma {:induction false} PositionIsLast(s: seq<string>, i: nat)
    requires i < |s|
    ensures i <= Position(s, s[i])
    decreases |s|
  {
    if s[|s| - 1] != s[i] {
      PositionIsLast(s[..|s| - 1], i);
    }
  }

  lemma GroupedHasNoDiscord(e: seq<string>, i: nat, j: nat)
    requires Grouped(e) && i < j < |e|
    ensures !Discordant(e, e, i, j)
  {
    PositionIsLast(e, i);
    PositionIsLast(e, j);
    var last := Position(e, e[i]);
    assert e[last] == e[i];
    assert j < last ==> e[j] == e[i];
  }

  lemma ScatteredHasDiscord(e: seq<string>, i: nat, j: nat, k: nat)
    requires i < j < k < |e| && e[i] == e[k] && e[j] != e[i]
    ensures Discordant(e, e, i, j) || Discordant(e, e, j, k)
  {
    PositionIsLast(e, k);
    PositionIsLast(e, j);
  }

  lemma NoDiscordExactlyWhenGrouped(e: seq<string>)
    ensures (forall m, n :: 0 <= m < n < |e| ==> !Discordant(e, e, m, n)) <==> Grouped(e)
  {
    if Grouped(e) {
      forall m, n | 0 <= m < n < |e| ensures !Discordant(e, e, m, n) {
        GroupedHasNoDiscord(e, m, n);
      }
    } else {
      var i, j, k :| 0 <= i < j < k < |e| && e[i] == e[k] && e[j] != e[i];
      ScatteredHasDiscord(e, i, j, k);
    }
  }

  lemma ZeroShare(d: nat, n: nat)
    requires n >= 2
    ensures d as real / ((n * (n - 1)) as real / 2.0) == 0.0 <==> d == 0
  {
    var m := n * (n - 1);
    assert m >= 2;
    var h := m as real / 2.0;
    assert h > 0.0;
    assert d as real / h * h == d as real;
  }

  /** With repeated items a list is at distance 0 from itself exactly when equal items stand side
      by side. */
  lemma SameListIsZeroExactlyWhen(e: seq<string>)
    ensures DRanking(Some(e), e) == 0.0 <==> Grouped(e)
  {
    assert forall k :: 0 <= k < |e| ==> e[k] in e;
    if |e| >= 2 {
      DiscordIsZero(e, e, 0);
      NoDiscordExactlyWhenGrouped(e);
      ZeroShare(Discord(e, e, 0), |e|);
    }
  }

  /** A list that agrees with the expected one and is not at distance 0. */
  lemma SameListIsNotZero()
    ensures DRanking(Some(["a", "b", "a"]), ["a", "b", "a"]) != 0.0
  {
    var e := ["a", "b", "a"];
    assert e[0] == e[2] && e[1] != e[0];
    SameListIsZeroExactlyWhen(e);
  }
}
