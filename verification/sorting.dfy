/**
  Array.prototype.sort with a numeric comparator, which the engine uses on
  pivot lists. The ECMAScript sort is stable, so it is modelled by an
  insertion sort that puts each element in front of every later element with
  an equal key; SortIsStable states that stability.
*/
module StableSort {
  import opened Candles

  /** Puts `c` in front of the first element of `t` whose key is not smaller. */
  function Insert(o: Order, c: Candle, t: seq<Candle>): (r: seq<Candle>)
    ensures |r| == |t| + 1
    ensures multiset(r) == multiset(t) + multiset{c}
    ensures forall x :: x in r <==> x == c || x in t
  {
    if t == [] || Key(o, c) <= Key(o, t[0]) then [c] + t
    else
      assert t == [t[0]] + t[1..];
      [t[0]] + Insert(o, c, t[1..])
  }

  function Sort(o: Order, s: seq<Candle>): (r: seq<Candle>)
    ensures |r| == |s|
    ensures multiset(r) == multiset(s)
  {
    if s == [] then []
    else
      assert s == [s[0]] + s[1..];
      Insert(o, s[0], Sort(o, s[1..]))
  }

  /** Every element of an ordered sequence has a key no smaller than its head's. */
  lemma HeadIsLeast(o: Order, t: seq<Candle>, x: Candle)
    requires Ordered(o, t) && t != [] && x in t
    ensures Key(o, t[0]) <= Key(o, x)
  {
    var m :| 0 <= m < |t| && t[m] == x;
    if m > 0 {
      assert Key(o, t[0]) <= Key(o, t[m]);
    }
  }

  /** Putting a key-least element in front of an ordered sequence keeps it ordered. */
  lemma ConsOrdered(o: Order, x: Candle, t: seq<Candle>)
    requires Ordered(o, t)
    requires forall y :: y in t ==> Key(o, x) <= Key(o, y)
    ensures Ordered(o, [x] + t)
  {
    var r := [x] + t;
    forall i, j | 0 <= i < j < |r| ensures Key(o, r[i]) <= Key(o, r[j]) {
      assert r[j] == t[j - 1];
      if i > 0 {
        assert r[i] == t[i - 1];
      }
    }
  }

  lemma {:induction false} InsertOrdered(o: Order, c: Candle, t: seq<Candle>)
    requires Ordered(o, t)
    ensures Ordered(o, Insert(o, c, t))
  {
    if t == [] || Key(o, c) <= Key(o, t[0]) {
      forall y | y in t ensures Key(o, c) <= Key(o, y) {
        HeadIsLeast(o, t, y);
      }
      ConsOrdered(o, c, t);
    } else {
      var rest := Insert(o, c, t[1..]);
      assert Ordered(o, t[1..]);
      InsertOrdered(o, c, t[1..]);
      forall y | y in rest ensures Key(o, t[0]) <= Key(o, y) {
        if y != c {
          HeadIsLeast(o, t, y);
        }
      }
      ConsOrdered(o, t[0], rest);
    }
  }

  /** The sort orders its output by the comparator and only rearranges its input. */
  lemma {:induction false} SortIsOrderedPermutation(o: Order, s: seq<Candle>)
    ensures Ordered(o, Sort(o, s))
    ensures multiset(Sort(o, s)) == multiset(s)
  {
    if s != [] {
      SortIsOrderedPermutation(o, s[1..]);
      InsertOrdered(o, s[0], Sort(o, s[1..]));
    }
  }

  /** The elements of `s` whose key is `k`, in their order in `s`. */
  function WithKey(o: Order, s: seq<Candle>, k: real): (r: seq<Candle>)
    ensures |r| <= |s|
  {
    if s == [] then []
    else (if Key(o, s[0]) == k then [s[0]] else []) + WithKey(o, s[1..], k)
  }

  lemma WithKeyCons(o: Order, x: Candle, t: seq<Candle>, k: real)
    ensures WithKey(o, [x] + t, k) == (if Key(o, x) == k then [x] else []) + WithKey(o, t, k)
  {
    assert ([x] + t)[1..] == t;
  }

  lemma InsertStep(o: Order, c: Candle, t: seq<Candle>)
    requires t != [] && Key(o, t[0]) < Key(o, c)
    ensures Insert(o, c, t) == [t[0]] + Insert(o, c, t[1..])
  {
  }

  /** Insert passes only elements with a smaller key, so it puts `c` first among the elements of its key. */
  lemma {:induction false} InsertWithKey(o: Order, c: Candle, t: seq<Candle>, k: real)
    ensures WithKey(o, Insert(o, c, t), k) == (if Key(o, c) == k then [c] else []) + WithKey(o, t, k)
  {
    if t == [] || Key(o, c) <= Key(o, t[0]) {
      WithKeyCons(o, c, t, k);
    } else {
      var rest := Insert(o, c, t[1..]);
      InsertStep(o, c, t);
      InsertWithKey(o, c, t[1..], k);
      WithKeyCons(o, t[0], rest, k);
      assert [t[0]] + t[1..] == t;
      WithKeyCons(o, t[0], t[1..], k);
      if Key(o, c) == k {
        // t[0] was passed, so its key is smaller than k.
        assert WithKey(o, Insert(o, c, t), k) == WithKey(o, rest, k) == [c] + WithKey(o, t[1..], k);
        assert WithKey(o, t, k) == WithKey(o, t[1..], k);
      } else {
        assert WithKey(o, rest, k) == WithKey(o, t[1..], k);
      }
    }
  }

  /** The sort is stable: the elements of any one key keep their input order. */
  lemma {:induction false} SortIsStable(o: Order, s: seq<Candle>, k: real)
    ensures WithKey(o, Sort(o, s), k) == WithKey(o, s, k)
  {
    if s != [] {
      SortIsStable(o, s[1..], k);
      InsertWithKey(o, s[0], Sort(o, s[1..]), k);
      WithKeyCons(o, s[0], s[1..], k);
      assert [s[0]] + s[1..] == s;
    }
  }
}
