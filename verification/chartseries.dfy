/**
  The candle series shown by the chart: the upsert that `renderGraph` applies
  to the newest candle and the bounded trim that `updateChart` applies after it.
*/
module ChartSeries {
  import opened Candles

  /** `findIndex(old => old.x === x)`: the first index whose timestamp is x, or -1. */
  function IndexOfTime(s: seq<Candle>, x: real): (r: int)
    ensures -1 <= r < |s|
    ensures r == -1 <==> forall k :: 0 <= k < |s| ==> s[k].x != x
    ensures r >= 0 ==> s[r].x == x && forall k :: 0 <= k < r ==> s[k].x != x
  {
    if s == [] then -1
    else if s[0].x == x then 0
    else
      var k := IndexOfTime(s[1..], x);
      if k == -1 then -1 else k + 1
  }

  /**
    The upsert of renderGraph: the candle replaces the first one with the same
    timestamp, unless that match is at index 0 (a falsy index), and is appended
    otherwise.
  */
  function Upsert(s: seq<Candle>, candle: Candle): seq<Candle> {
    var sameEndTime := IndexOfTime(s, candle.x);
    if sameEndTime != 0 && sameEndTime > -1 then s[sameEndTime := candle] else s + [candle]
  }

  /** `slice(-barCount)` when the series is longer than barCount; `slice(-0)` keeps everything. */
  function Trim(s: seq<Candle>, barCount: nat): (r: seq<Candle>)
    ensures barCount > 0 ==> |r| == (if |s| < barCount then |s| else barCount)
    ensures barCount == 0 ==> r == s
    ensures |r| <= |s| && r == s[|s| - |r|..]
  {
    if |s| != 0 && |s| > barCount then
      if barCount == 0 then s else s[|s| - barCount..]
    else s
  }

  /**
    A candle whose timestamp first occurs at an index above 0 overwrites that
    candle: same length, every other candle unchanged.
  */
  lemma UpsertReplaces(s: seq<Candle>, candle: Candle, i: nat)
    requires 0 < i < |s| && s[i].x == candle.x
    requires forall k :: 0 <= k < i ==> s[k].x != candle.x
    ensures Upsert(s, candle) == s[i := candle]
    ensures |Upsert(s, candle)| == |s|
    ensures forall k :: 0 <= k < |s| && k != i ==> Upsert(s, candle)[k] == s[k]
  {
  }

  /**
    A candle with a new timestamp is appended, and so is one whose timestamp
    matches the first candle: the series then holds that timestamp twice.
  */
  lemma UpsertAppends(s: seq<Candle>, candle: Candle)
    requires (forall k :: 0 <= k < |s| ==> s[k].x != candle.x) || (s != [] && s[0].x == candle.x)
    ensures Upsert(s, candle) == s + [candle]
    ensures s != [] && s[0].x == candle.x ==> Upsert(s, candle)[0].x == Upsert(s, candle)[|s|].x
  {
  }

  /**
    Upsert followed by the trim keeps a series within barCount candles, keeps
    it non-empty and always shows the new candle.
  */
  lemma {:induction false} UpsertThenTrim(s: seq<Candle>, candle: Candle, barCount: nat)
    requires 0 < barCount && |s| <= barCount
    ensures var r := Trim(Upsert(s, candle), barCount);
      0 < |r| <= barCount && candle in r
  {
    var u := Upsert(s, candle);
    var i := IndexOfTime(s, candle.x);
    if i != 0 && i > -1 {
      assert u == s[i := candle] && |u| <= barCount;
      assert Trim(u, barCount) == u;
      assert u[i] == candle;
    } else {
      assert u == s + [candle];
      var r := Trim(u, barCount);
      assert r[|r| - 1] == u[|u| - 1] == candle;
    }
  }
}
