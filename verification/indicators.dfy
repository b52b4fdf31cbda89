/**
  The support/resistance detector and the entry-point selectors
  (src/app/financial-chart/indicators.ts; the component carries a
  byte-identical copy of the detector, modelled once here).
*/
module Indicators {
  import opened Wrappers
  import opened Candles
  import opened StableSort

  /** The two lists findSupportAndResistance returns. */
  datatype Levels = Levels(supportLines: seq<Candle>, resistanceLines: seq<Candle>)

  // ---------------------------------------------------------------------------
  // Pivots
  // ---------------------------------------------------------------------------

  /**
    Position i of window a is a pivot: the two bars before it reach at least as
    far (low at or above a support, high at or below a resistance) and the two
    bars after it stay strictly short of it. The guard `1 < i < |a| - 3` keeps
    the first two and the last THREE positions out.
  */
  predicate IsPivot(side: Side, a: seq<Candle>, i: int) {
    1 < i < |a| - 3 &&
    match side
    case Support =>
      a[i - 2].l >= a[i].l && a[i - 1].l >= a[i].l && a[i + 1].l > a[i].l && a[i + 2].l > a[i].l
    case Resistance =>
      a[i - 2].h <= a[i].h && a[i - 1].h <= a[i].h && a[i + 1].h < a[i].h && a[i + 2].h < a[i].h
  }

  /** The pivots among the first n positions of a, in window order (Array.filter). */
  function PivotsBefore(side: Side, a: seq<Candle>, n: nat): (r: seq<Candle>)
    requires n <= |a|
    ensures |r| <= n
  {
    if n == 0 then []
    else PivotsBefore(side, a, n - 1) + (if IsPivot(side, a, n - 1) then [a[n - 1]] else [])
  }

  function Pivots(side: Side, a: seq<Candle>): seq<Candle> {
    PivotsBefore(side, a, |a|)
  }

  /** Candle c stands at a pivot position below n. */
  predicate PivotBefore(side: Side, a: seq<Candle>, n: nat, c: Candle) {
    exists i :: 0 <= i < n && IsPivot(side, a, i) && a[i] == c
  }

  /** Standing at a pivot below n + 1 is standing at one below n, or at position n itself. */
  lemma PivotBeforeNext(side: Side, a: seq<Candle>, n: nat, c: Candle)
    requires n < |a|
    ensures PivotBefore(side, a, n + 1, c) <==> PivotBefore(side, a, n, c) || (IsPivot(side, a, n) && a[n] == c)
  {
    if PivotBefore(side, a, n + 1, c) && !(IsPivot(side, a, n) && a[n] == c) {
      var i :| 0 <= i < n + 1 && IsPivot(side, a, i) && a[i] == c;
      assert PivotBefore(side, a, n, c);
    }
  }

  /** The filter keeps exactly the candles standing at a pivot position. */
  lemma {:induction false} PivotsBeforeMembers(side: Side, a: seq<Candle>, n: nat)
    requires n <= |a|
    ensures forall c :: c in PivotsBefore(side, a, n) <==> PivotBefore(side, a, n, c)
  {
    if n > 0 {
      PivotsBeforeMembers(side, a, n - 1);
      var prev := PivotsBefore(side, a, n - 1);
      var tail := if IsPivot(side, a, n - 1) then [a[n - 1]] else [];
      assert PivotsBefore(side, a, n) == prev + tail;
      forall c ensures c in prev + tail <==> PivotBefore(side, a, n, c) {
        PivotBeforeNext(side, a, n - 1, c);
      }
    }
  }

  /** A window of fewer than six candles has no pivot at all. */
  lemma {:induction false} ShortWindowHasNoPivots(side: Side, a: seq<Candle>, n: nat)
    requires n <= |a| < 6
    ensures PivotsBefore(side, a, n) == []
  {
    if n > 0 {
      ShortWindowHasNoPivots(side, a, n - 1);
    }
  }

  /** A non-empty sequence is its front followed by its last element. */
  lemma SplitLast(s: seq<Candle>)
    requires s != []
    ensures s == s[..|s| - 1] + [s[|s| - 1]]
    ensures multiset(s) == multiset(s[..|s| - 1]) + multiset{s[|s| - 1]}
  {
    assert s == s[..|s| - 1] + [s[|s| - 1]];
  }

  /** The support pass first drops every candle whose time is not positive. */
  function PositiveTime(candles: seq<Candle>): (r: seq<Candle>)
    ensures |r| <= |candles|
    ensures forall c :: c in r <==> c in candles && c.x > 0.0
    ensures forall c :: multiset(r)[c] == if c.x > 0.0 then multiset(candles)[c] else 0
    ensures IsSubsequence(r, candles)
  {
    if candles == [] then []
    else
      SplitLast(candles);
      var init := candles[..|candles| - 1];
      var last := candles[|candles| - 1];
      var kept := PositiveTime(init);
      if last.x > 0.0 then
        assert (kept + [last])[..|kept|] == kept;
        kept + [last]
      else
        kept
  }

  /** Support pivots of the positive-time window, sorted ascending by low. */
  function SupportCandidates(candles: seq<Candle>): seq<Candle> {
    Sort(LowAscending, Pivots(Support, PositiveTime(candles)))
  }

  /** Resistance pivots of the unfiltered window, sorted descending by high. */
  function ResistanceCandidates(candles: seq<Candle>): seq<Candle> {
    Sort(HighDescending, Pivots(Resistance, candles))
  }

  // ---------------------------------------------------------------------------
  // Average bar height
  // ---------------------------------------------------------------------------

  /** `map(h - l).reduce(+)` with no seed: a left fold that starts from the first range. */
  function SumOfRanges(candles: seq<Candle>): real
    requires |candles| > 0
  {
    if |candles| == 1 then candles[0].h - candles[0].l
    else SumOfRanges(candles[..|candles| - 1]) + (candles[|candles| - 1].h - candles[|candles| - 1].l)
  }

  function AverageBarHeight(candles: seq<Candle>): real
    requires |candles| > 0
  {
    SumOfRanges(candles) / (|candles| as real)
  }

  lemma {:induction false} SumOfRangesNonNegative(candles: seq<Candle>)
    requires |candles| > 0
    requires forall k :: 0 <= k < |candles| ==> candles[k].l <= candles[k].h
    ensures SumOfRanges(candles) >= 0.0
  {
    if |candles| > 1 {
      SumOfRangesNonNegative(candles[..|candles| - 1]);
    }
  }

  /** Over well-formed bars (low at or below high) the average bar height is not negative. */
  lemma {:induction false} AverageBarHeightNonNegative(candles: seq<Candle>)
    requires |candles| > 0
    requires forall k :: 0 <= k < |candles| ==> candles[k].l <= candles[k].h
    ensures AverageBarHeight(candles) >= 0.0
  {
    SumOfRangesNonNegative(candles);
  }

  // ---------------------------------------------------------------------------
  // Greedy de-duplication
  // ---------------------------------------------------------------------------

  /** `kept.every(k => Math.abs(price(c) - price(k)) > 2.0 * averageBarHeight)`. */
  predicate FarFromAll(side: Side, c: Candle, kept: seq<Candle>, averageBarHeight: real) {
    forall k :: 0 <= k < |kept| ==> Abs(Price(side, c) - Price(side, kept[k])) > 2.0 * averageBarHeight
  }

  /** The greedy pass over s: a line is kept when it is far from every line kept before it. */
  function Unique(side: Side, s: seq<Candle>, averageBarHeight: real): (r: seq<Candle>)
    ensures |r| <= |s|
    decreases |s|
  {
    if s == [] then []
    else
      var kept := Unique(side, s[..|s| - 1], averageBarHeight);
      if FarFromAll(side, s[|s| - 1], kept, averageBarHeight) then kept + [s[|s| - 1]] else kept
  }

  /** a can be obtained from b by deleting elements. */
  predicate IsSubsequence(a: seq<Candle>, b: seq<Candle>)
    decreases |b|
  {
    if a == [] then true
    else if b == [] then false
    else
      || (a[|a| - 1] == b[|b| - 1] && IsSubsequence(a[..|a| - 1], b[..|b| - 1]))
      || IsSubsequence(a, b[..|b| - 1])
  }

  lemma {:induction false} SubsequenceMembers(a: seq<Candle>, b: seq<Candle>)
    requires IsSubsequence(a, b)
    ensures forall x :: x in a ==> x in b
    decreases |b|
  {
    if a != [] {
      var b' := b[..|b| - 1];
      if a[|a| - 1] == b[|b| - 1] && IsSubsequence(a[..|a| - 1], b') {
        SubsequenceMembers(a[..|a| - 1], b');
        assert a == a[..|a| - 1] + [a[|a| - 1]];
        assert b == b' + [b[|b| - 1]];
      } else {
        SubsequenceMembers(a, b');
        assert b == b' + [b[|b| - 1]];
      }
    }
  }

  /** Deleting elements from an ordered sequence leaves it ordered. */
  lemma {:induction false} SubsequenceOrdered(o: Order, a: seq<Candle>, b: seq<Candle>)
    requires IsSubsequence(a, b) && Ordered(o, b)
    ensures Ordered(o, a)
    decreases |b|
  {
    if a != [] {
      var b' := b[..|b| - 1];
      assert Ordered(o, b');
      if a[|a| - 1] == b[|b| - 1] && IsSubsequence(a[..|a| - 1], b') {
        var a' := a[..|a| - 1];
        SubsequenceOrdered(o, a', b');
        SubsequenceMembers(a', b');
        forall i, j | 0 <= i < j < |a| ensures Key(o, a[i]) <= Key(o, a[j]) {
          if j == |a| - 1 {
            assert a[i] in a';
            var m :| 0 <= m < |b'| && b'[m] == a[i];
            assert Key(o, b[m]) <= Key(o, b[|b| - 1]);
          } else {
            assert a[i] == a'[i] && a[j] == a'[j];
          }
        }
      } else {
        SubsequenceOrdered(o, a, b');
      }
    }
  }

  lemma {:induction false} UniqueIsSubsequence(side: Side, s: seq<Candle>, averageBarHeight: real)
    ensures IsSubsequence(Unique(side, s, averageBarHeight), s)
    decreases |s|
  {
    if s != [] {
      var kept := Unique(side, s[..|s| - 1], averageBarHeight);
      UniqueIsSubsequence(side, s[..|s| - 1], averageBarHeight);
      var r := Unique(side, s, averageBarHeight);
      if r != kept {
        assert r[..|r| - 1] == kept;
      }
    }
  }

  lemma AbsSymmetric(a: real, b: real)
    ensures Abs(a - b) == Abs(b - a)
  {
  }

  /** Any two lines of r are more than twice `averageBarHeight` apart. */
  predicate Separated(side: Side, r: seq<Candle>, averageBarHeight: real) {
    forall i, j :: 0 <= i < j < |r| ==> Abs(Price(side, r[i]) - Price(side, r[j])) > 2.0 * averageBarHeight
  }

  /** Any two kept lines are more than twice `averageBarHeight` apart. */
  lemma {:induction false} UniqueSeparated(side: Side, s: seq<Candle>, averageBarHeight: real)
    ensures Separated(side, Unique(side, s, averageBarHeight), averageBarHeight)
    decreases |s|
  {
    if s != [] {
      var last := s[|s| - 1];
      var kept := Unique(side, s[..|s| - 1], averageBarHeight);
      UniqueSeparated(side, s[..|s| - 1], averageBarHeight);
      if FarFromAll(side, last, kept, averageBarHeight) {
        var r := kept + [last];
        forall i, j | 0 <= i < j < |r| ensures Abs(Price(side, r[i]) - Price(side, r[j])) > 2.0 * averageBarHeight {
          assert r[i] == kept[i];
          if j < |kept| {
            assert r[j] == kept[j];
          } else {
            assert Abs(Price(side, last) - Price(side, kept[i])) > 2.0 * averageBarHeight;
            AbsSymmetric(Price(side, kept[i]), Price(side, last));
          }
        }
        assert Separated(side, r, averageBarHeight);
      }
    }
  }

  /** c lies within twice `averageBarHeight` of some line of r. */
  predicate Near(side: Side, c: Candle, r: seq<Candle>, averageBarHeight: real) {
    exists k :: 0 <= k < |r| && Abs(Price(side, c) - Price(side, r[k])) <= 2.0 * averageBarHeight
  }

  /** Every line of s is in r or near one of r's lines. */
  predicate Covers(side: Side, s: seq<Candle>, r: seq<Candle>, averageBarHeight: real) {
    forall i :: 0 <= i < |s| ==> s[i] in r || Near(side, s[i], r, averageBarHeight)
  }

  /** Covering survives appending to the covering list. */
  lemma CoversExtends(side: Side, s: seq<Candle>, kept: seq<Candle>, extra: seq<Candle>, averageBarHeight: real)
    requires Covers(side, s, kept, averageBarHeight)
    ensures Covers(side, s, kept + extra, averageBarHeight)
  {
    forall i | 0 <= i < |s|
      ensures s[i] in kept + extra || Near(side, s[i], kept + extra, averageBarHeight)
    {
      if s[i] !in kept {
        var k :| 0 <= k < |kept| && Abs(Price(side, s[i]) - Price(side, kept[k])) <= 2.0 * averageBarHeight;
        assert (kept + extra)[k] == kept[k];
      }
    }
  }

  /** Every line of s is kept, or lies within twice `averageBarHeight` of a kept line. */
  lemma {:induction false} UniqueCovers(side: Side, s: seq<Candle>, averageBarHeight: real)
    ensures Covers(side, s, Unique(side, s, averageBarHeight), averageBarHeight)
    decreases |s|
  {
    if s != [] {
      var s' := s[..|s| - 1];
      var last := s[|s| - 1];
      var kept := Unique(side, s', averageBarHeight);
      var r := Unique(side, s, averageBarHeight);
      UniqueCovers(side, s', averageBarHeight);
      var extra := if FarFromAll(side, last, kept, averageBarHeight) then [last] else [];
      assert r == kept + extra;
      CoversExtends(side, s', kept, extra, averageBarHeight);
      forall i | 0 <= i < |s|
        ensures s[i] in r || Near(side, s[i], r, averageBarHeight)
      {
        if i < |s| - 1 {
          assert s[i] == s'[i];
        } else if !FarFromAll(side, last, kept, averageBarHeight) {
          var k :| 0 <= k < |kept| && Abs(Price(side, last) - Price(side, kept[k])) <= 2.0 * averageBarHeight;
          assert r[k] == kept[k];
        } else {
          assert r[|r| - 1] == last;
        }
      }
    }
  }

  /** The first (most extreme) line always survives, at the head of the result. */
  lemma {:induction false} UniqueKeepsFirst(side: Side, s: seq<Candle>, averageBarHeight: real)
    requires s != []
    ensures var r := Unique(side, s, averageBarHeight); r != [] && r[0] == s[0]
    decreases |s|
  {
    if |s| > 1 {
      UniqueKeepsFirst(side, s[..|s| - 1], averageBarHeight);
    } else {
      assert s[..0] == [];
    }
  }

  /** The `forEach` pass of findSupportAndResistance, pushing into a fresh list. */
  method DedupLines(side: Side, lines: seq<Candle>, averageBarHeight: real) returns (unique: seq<Candle>)
    ensures unique == Unique(side, lines, averageBarHeight)
  {
    unique := [];
    var index := 0;
    while index < |lines|
      invariant 0 <= index <= |lines|
      invariant unique == Unique(side, lines[..index], averageBarHeight)
    {
      var line := lines[index];
      assert lines[..index + 1][..index] == lines[..index];
      if index == 0 {
        unique := unique + [line];
      }
      if index > 0 {
        var isUnique := FarFromAll(side, line, unique, averageBarHeight);
        if isUnique {
          unique := unique + [line];
        }
      }
      index := index + 1;
    }
    assert lines[..index] == lines;
  }

  // ---------------------------------------------------------------------------
  // findSupportAndResistance
  // ---------------------------------------------------------------------------

  /** The support lines findSupportAndResistance returns: the support candidates thinned by twice the window's average bar height. */
  function SupportLinesOf(candles: seq<Candle>): seq<Candle>
    requires candles != []
  {
    Unique(Support, SupportCandidates(candles), AverageBarHeight(candles))
  }

  /** The resistance lines findSupportAndResistance returns: the resistance candidates thinned by twice the window's average bar height. */
  function ResistanceLinesOf(candles: seq<Candle>): seq<Candle>
    requires candles != []
  {
    Unique(Resistance, ResistanceCandidates(candles), AverageBarHeight(candles))
  }

  /**
    What findSupportAndResistance returns. An empty window makes the seedless
    reduce throw; that is the None case.
  */
  function SupportAndResistance(candles: seq<Candle>): Option<Levels> {
    if candles == [] then None
    else Some(Levels(SupportLinesOf(candles), ResistanceLinesOf(candles)))
  }

  method FindSupportAndResistance(candles: seq<Candle>) returns (r: Option<Levels>)
    ensures r == SupportAndResistance(candles)
  {
    if candles == [] {
      // the seedless reduce over an empty array throws
      return None;
    }
    var supportLines := SupportCandidates(candles);
    var resistanceLines := ResistanceCandidates(candles);
    var averageBarHeight := AverageBarHeight(candles);
    var uniqueSupportLines := DedupLines(Support, supportLines, averageBarHeight);
    var uniqueResistanceLines := DedupLines(Resistance, resistanceLines, averageBarHeight);
    r := Some(Levels(uniqueSupportLines, uniqueResistanceLines));
  }

  /** Candle c stands at a pivot position of window a. */
  predicate StandsAtPivot(side: Side, a: seq<Candle>, c: Candle) {
    PivotBefore(side, a, |a|, c)
  }

  /** A candle is in the pivot filter's output iff it stands at a pivot position. */
  lemma {:induction false} PivotsMembers(side: Side, a: seq<Candle>)
    ensures forall c :: c in Pivots(side, a) <==> StandsAtPivot(side, a, c)
  {
    PivotsBeforeMembers(side, a, |a|);
  }

  /** Every line kept from sorted pivots is one of those pivots. */
  lemma {:induction false} KeptLinesArePivots(side: Side, o: Order, a: seq<Candle>, averageBarHeight: real)
    ensures forall c :: c in Unique(side, Sort(o, Pivots(side, a)), averageBarHeight) ==> StandsAtPivot(side, a, c)
  {
    var candidates := Sort(o, Pivots(side, a));
    var r := Unique(side, candidates, averageBarHeight);
    UniqueIsSubsequence(side, candidates, averageBarHeight);
    SubsequenceMembers(r, candidates);
    PivotsMembers(side, a);
    forall c | c in r ensures StandsAtPivot(side, a, c) {
      assert c in multiset(candidates);
      assert c in Pivots(side, a);
    }
  }

  /** Every support line is a candle standing at a support pivot of the positive-time window. */
  lemma {:induction false} SupportLinesArePivots(candles: seq<Candle>)
    requires candles != []
    ensures forall c :: c in SupportLinesOf(candles) ==> StandsAtPivot(Support, PositiveTime(candles), c)
  {
    KeptLinesArePivots(Support, LowAscending, PositiveTime(candles), AverageBarHeight(candles));
  }

  /** The support lines are a subsequence of the support pivots sorted ascending by low, hence ascending. */
  lemma {:induction false} SupportLinesAscending(candles: seq<Candle>)
    requires candles != []
    ensures var r := SupportLinesOf(candles);
      && IsSubsequence(r, SupportCandidates(candles))
      && (forall i, j :: 0 <= i < j < |r| ==> r[i].l <= r[j].l)
  {
    var candidates := SupportCandidates(candles);
    var r := SupportLinesOf(candles);
    SortIsOrderedPermutation(LowAscending, Pivots(Support, PositiveTime(candles)));
    UniqueIsSubsequence(Support, candidates, AverageBarHeight(candles));
    SubsequenceOrdered(LowAscending, r, candidates);
  }

  /**
    Support lines are pairwise more than twice the average bar height apart,
    and every support pivot is kept or lies within that distance of a kept line.
  */
  lemma {:induction false} SupportLinesSeparatedAndCovering(candles: seq<Candle>)
    requires candles != []
    ensures var r := SupportLinesOf(candles);
      var candidates := SupportCandidates(candles);
      var averageBarHeight := AverageBarHeight(candles);
      Separated(Support, r, averageBarHeight) && Covers(Support, candidates, r, averageBarHeight)
  {
    var candidates := SupportCandidates(candles);
    var averageBarHeight := AverageBarHeight(candles);
    assert SupportLinesOf(candles) == Unique(Support, candidates, averageBarHeight);
    UniqueSeparated(Support, candidates, averageBarHeight);
    UniqueCovers(Support, candidates, averageBarHeight);
  }

  /** When any support pivot exists, the lowest one is the first support line. */
  lemma {:induction false} SupportLinesKeepLowest(candles: seq<Candle>)
    requires candles != []
    ensures var r := SupportLinesOf(candles);
      var candidates := SupportCandidates(candles);
      candidates != [] ==> r != [] && r[0] == candidates[0] && forall c :: c in candidates ==> r[0].l <= c.l
  {
    var candidates := SupportCandidates(candles);
    assert SupportLinesOf(candles) == Unique(Support, candidates, AverageBarHeight(candles));
    if candidates != [] {
      SortIsOrderedPermutation(LowAscending, Pivots(Support, PositiveTime(candles)));
      UniqueKeepsFirst(Support, candidates, AverageBarHeight(candles));
      forall c | c in candidates ensures candidates[0].l <= c.l {
        HeadIsLeast(LowAscending, candidates, c);
      }
    }
  }

  /** Every resistance line is a candle standing at a resistance pivot of the unfiltered window. */
  lemma {:induction false} ResistanceLinesArePivots(candles: seq<Candle>)
    requires candles != []
    ensures forall c :: c in ResistanceLinesOf(candles) ==> StandsAtPivot(Resistance, candles, c)
  {
    KeptLinesArePivots(Resistance, HighDescending, candles, AverageBarHeight(candles));
  }

  /** The resistance lines are a subsequence of the resistance pivots sorted descending by high, hence descending. */
  lemma {:induction false} ResistanceLinesDescending(candles: seq<Candle>)
    requires candles != []
    ensures var r := ResistanceLinesOf(candles);
      && IsSubsequence(r, ResistanceCandidates(candles))
      && (forall i, j :: 0 <= i < j < |r| ==> r[i].h >= r[j].h)
  {
    var candidates := ResistanceCandidates(candles);
    var r := ResistanceLinesOf(candles);
    SortIsOrderedPermutation(HighDescending, Pivots(Resistance, candles));
    UniqueIsSubsequence(Resistance, candidates, AverageBarHeight(candles));
    SubsequenceOrdered(HighDescending, r, candidates);
  }

  /** The mirror of SupportLinesSeparatedAndCovering on highs. */
  lemma {:induction false} ResistanceLinesSeparatedAndCovering(candles: seq<Candle>)
    requires candles != []
    ensures var r := ResistanceLinesOf(candles);
      var candidates := ResistanceCandidates(candles);
      var averageBarHeight := AverageBarHeight(candles);
      Separated(Resistance, r, averageBarHeight) && Covers(Resistance, candidates, r, averageBarHeight)
  {
    var candidates := ResistanceCandidates(candles);
    var averageBarHeight := AverageBarHeight(candles);
    assert ResistanceLinesOf(candles) == Unique(Resistance, candidates, averageBarHeight);
    UniqueSeparated(Resistance, candidates, averageBarHeight);
    UniqueCovers(Resistance, candidates, averageBarHeight);
  }

  /** When any resistance pivot exists, the highest one is the first resistance line. */
  lemma {:induction false} ResistanceLinesKeepHighest(candles: seq<Candle>)
    requires candles != []
    ensures var r := ResistanceLinesOf(candles);
      var candidates := ResistanceCandidates(candles);
      candidates != [] ==> r != [] && r[0] == candidates[0] && forall c :: c in candidates ==> r[0].h >= c.h
  {
    var candidates := ResistanceCandidates(candles);
    assert ResistanceLinesOf(candles) == Unique(Resistance, candidates, AverageBarHeight(candles));
    if candidates != [] {
      SortIsOrderedPermutation(HighDescending, Pivots(Resistance, candles));
      UniqueKeepsFirst(Resistance, candidates, AverageBarHeight(candles));
      forall c | c in candidates ensures candidates[0].h >= c.h {
        HeadIsLeast(HighDescending, candidates, c);
      }
    }
  }

  /** Fewer than six candles give no support and no resistance line. */
  lemma {:induction false} ShortWindowHasNoLevels(candles: seq<Candle>)
    requires 0 < |candles| < 6
    ensures SupportAndResistance(candles) == Some(Levels([], []))
  {
    ShortWindowHasNoPivots(Support, PositiveTime(candles), |PositiveTime(candles)|);
    ShortWindowHasNoPivots(Resistance, candles, |candles|);
  }

  // ---------------------------------------------------------------------------
  // Entry-point selection
  // ---------------------------------------------------------------------------

  /** Array.find: the first element whose key exceeds `bound`. */
  function FirstAbove(o: Order, s: seq<Candle>, bound: real): (r: Option<Candle>)
    ensures r.Some? ==> r.value in s && Key(o, r.value) > bound
    ensures r.Some? ==> exists i :: 0 <= i < |s| && s[i] == r.value && forall j :: 0 <= j < i ==> Key(o, s[j]) <= bound
  {
    if s == [] then None
    else if Key(o, s[0]) > bound then Some(s[0])
    else
      assert s == [s[0]] + s[1..];
      FirstAbove(o, s[1..], bound)
  }

  /** Nothing is found iff no element qualifies. */
  lemma {:induction false} FirstAboveNone(o: Order, s: seq<Candle>, bound: real)
    ensures FirstAbove(o, s, bound).None? <==> forall c :: c in s ==> Key(o, c) <= bound
  {
    if s != [] && Key(o, s[0]) <= bound {
      FirstAboveNone(o, s[1..], bound);
      assert s == [s[0]] + s[1..];
    }
  }

  /** On an ordered sequence the first match has the least key of all matches. */
  lemma {:induction false} FirstAboveIsLeast(o: Order, s: seq<Candle>, bound: real)
    requires Ordered(o, s)
    ensures var r := FirstAbove(o, s, bound);
      r.Some? ==> forall c :: c in s && Key(o, c) > bound ==> Key(o, r.value) <= Key(o, c)
  {
    if s != [] {
      if Key(o, s[0]) > bound {
        forall c | c in s ensures Key(o, s[0]) <= Key(o, c) {
          HeadIsLeast(o, s, c);
        }
      } else {
        assert Ordered(o, s[1..]);
        FirstAboveIsLeast(o, s[1..], bound);
        assert s == [s[0]] + s[1..];
      }
    }
  }

  /** Sort the lines by `o`, then find the first whose key exceeds `bound`. */
  function Nearest(o: Order, lines: seq<Candle>, bound: real): Option<Candle> {
    FirstAbove(o, Sort(o, lines), bound)
  }

  lemma {:induction false} NearestIsClosest(o: Order, lines: seq<Candle>, bound: real)
    ensures var r := Nearest(o, lines, bound);
      && (r.Some? ==> (r.value in lines && Key(o, r.value) > bound
              && forall c :: c in lines && Key(o, c) > bound ==> Key(o, r.value) <= Key(o, c)))
      && (r.None? <==> forall c :: c in lines ==> Key(o, c) <= bound)
  {
    var sorted := Sort(o, lines);
    SortIsOrderedPermutation(o, lines);
    FirstAboveIsLeast(o, sorted, bound);
    FirstAboveNone(o, sorted, bound);
    forall c ensures c in sorted <==> c in lines {
      assert c in sorted <==> c in multiset(sorted);
      assert c in lines <==> c in multiset(lines);
    }
  }

  /** findEntryPointLong's result: support lines sorted descending by low, the first below the candle's low. */
  function EntryLong(candle: Candle, supportLines: seq<Candle>): Option<Candle> {
    Nearest(LowDescending, supportLines, -candle.l)
  }

  /** findEntryPointShort's result: resistance lines sorted ascending by high, the first above the candle's high. */
  function EntryShort(candle: Candle, resistanceLines: seq<Candle>): Option<Candle> {
    Nearest(HighAscending, resistanceLines, candle.h)
  }

  /** The long entry is the highest support strictly below the candle's low, absent iff there is none. */
  lemma {:induction false} EntryLongIsHighestSupportBelow(candle: Candle, supportLines: seq<Candle>)
    ensures var r := EntryLong(candle, supportLines);
      && (r.Some? ==> (r.value in supportLines && r.value.l < candle.l
              && forall s :: s in supportLines && s.l < candle.l ==> s.l <= r.value.l))
      && (r.None? <==> forall s :: s in supportLines ==> s.l >= candle.l)
  {
    NearestIsClosest(LowDescending, supportLines, -candle.l);
  }

  /** The short entry is the lowest resistance strictly above the candle's high, absent iff there is none. */
  lemma {:induction false} EntryShortIsLowestResistanceAbove(candle: Candle, resistanceLines: seq<Candle>)
    ensures var r := EntryShort(candle, resistanceLines);
      && (r.Some? ==> (r.value in resistanceLines && r.value.h > candle.h
              && forall s :: s in resistanceLines && s.h > candle.h ==> r.value.h <= s.h))
      && (r.None? <==> forall s :: s in resistanceLines ==> s.h <= candle.h)
  {
    NearestIsClosest(HighAscending, resistanceLines, candle.h);
  }

  /** Writes `sorted` over the array, which holds a permutation of it. */
  method WriteBack(a: array<Candle>, sorted: seq<Candle>)
    requires |sorted| == a.Length
    modifies a
    ensures a[..] == sorted
  {
    forall i | 0 <= i < a.Length {
      a[i] := sorted[i];
    }
  }

  /** findEntryPointLong: sorts the caller's support list in place, descending by low, then finds. */
  method FindEntryPointLong(candle: Candle, supportLines: array<Candle>) returns (r: Option<Candle>)
    modifies supportLines
    ensures supportLines[..] == Sort(LowDescending, old(supportLines[..]))
    ensures r == EntryLong(candle, old(supportLines[..]))
  {
    var lines := supportLines[..];
    var sorted := Sort(LowDescending, lines);
    WriteBack(supportLines, sorted);
    r := FirstAbove(LowDescending, sorted, -candle.l);
    assert r == EntryLong(candle, lines);
  }

  /** findEntryPointShort: sorts the caller's resistance list in place, ascending by high, then finds. */
  method FindEntryPointShort(candle: Candle, resistanceLines: array<Candle>) returns (r: Option<Candle>)
    modifies resistanceLines
    ensures resistanceLines[..] == Sort(HighAscending, old(resistanceLines[..]))
    ensures r == EntryShort(candle, old(resistanceLines[..]))
  {
    var lines := resistanceLines[..];
    var sorted := Sort(HighAscending, lines);
    WriteBack(resistanceLines, sorted);
    r := FirstAbove(HighAscending, sorted, candle.h);
    assert r == EntryShort(candle, lines);
  }
}
