/**
 The sorted median (autodrain/engine.go, median) and what it says about the values it
 was taken from, whatever order they were listed in.
 */
module Medians {

  function Insert(xs: seq<real>, x: real): seq<real> {
    if xs == [] || x <= xs[0] then [x] + xs else [xs[0]] + Insert(xs[1..], x)
  }

  function Sort(xs: seq<real>): seq<real> {
    if xs == [] then [] else Insert(Sort(xs[..|xs| - 1]), xs[|xs| - 1])
  }

  /** `m` is the middle value at `k`, or lies midway between the middle two; it is 0 for none. */
  ghost predicate MiddleAt(s: seq<real>, k: nat, m: real) {
    if s == [] then m == 0.0
    else k < |s| && ((k + k + 1 == |s| && m == s[k]) || (0 < k && k + k == |s| && m + m == s[k - 1] + s[k]))
  }

  ghost predicate IsMiddle(xs: seq<real>, m: real) {
    exists k :: MiddleAt(Sort(xs), k, m)
  }

  method Median(xs: seq<real>) returns (m: real)
    ensures IsMiddle(xs, m)
  {
    if |xs| == 0 {
      m := 0.0;
      assert MiddleAt(Sort(xs), 0, m);
      return;
    }
    SortIsOrdered(xs);
    var s, k := Sort(xs), |xs| / 2;
    if |xs| % 2 == 1 {
      m := s[k];
    } else {
      m := (s[k - 1] + s[k]) / 2.0;
    }
    assert MiddleAt(s, k, m);
  }

  ghost predicate IsOrdered(xs: seq<real>) {
    forall i, j :: 0 <= i < j < |xs| ==> xs[i] <= xs[j]
  }

  lemma {:induction false} InsertIsOrdered(xs: seq<real>, x: real)
    requires IsOrdered(xs)
    ensures IsOrdered(Insert(xs, x)) && |Insert(xs, x)| == |xs| + 1
    ensures forall y :: y in Insert(xs, x) <==> y == x || y in xs
    decreases |xs|
  {
    if xs != [] && x > xs[0] {
      InsertIsOrdered(xs[1..], x);
      var rest := Insert(xs[1..], x);
      assert xs == [xs[0]] + xs[1..];
      forall j | 0 <= j < |rest|
        ensures xs[0] <= rest[j]
      {
        assert rest[j] in rest;
      }
    }
  }

  lemma {:induction false} SortIsOrdered(xs: seq<real>)
    ensures IsOrdered(Sort(xs)) && |Sort(xs)| == |xs|
    ensures forall y :: y in Sort(xs) <==> y in xs
    decreases |xs|
  {
    if xs != [] {
      var pre := xs[..|xs| - 1];
      SortIsOrdered(pre);
      InsertIsOrdered(Sort(pre), xs[|xs| - 1]);
      assert xs == pre + [xs[|xs| - 1]];
    }
  }

  // ---------------------------------------------------------------- counting

  /** A side of a value, the value included. */
  datatype Side = AtMost(v: real) | AtLeast(v: real) {
    predicate Has(x: real) {
      if AtMost? then x <= v else v <= x
    }
  }

  function Count(xs: seq<real>, side: Side): nat {
    if xs == [] then 0 else (if side.Has(xs[0]) then 1 else 0) + Count(xs[1..], side)
  }

  lemma {:induction false} CountSplits(a: seq<real>, b: seq<real>, side: Side)
    ensures Count(a + b, side) == Count(a, side) + Count(b, side)
    decreases |a|
  {
    if a == [] {
      assert a + b == b;
    } else {
      assert (a + b)[1..] == a[1..] + b;
      CountSplits(a[1..], b, side);
    }
  }

  lemma {:induction false} CountInsert(xs: seq<real>, x: real, side: Side)
    ensures Count(Insert(xs, x), side) == Count(xs, side) + (if side.Has(x) then 1 else 0)
    decreases |xs|
  {
    if xs == [] || x <= xs[0] {
      assert ([x] + xs)[1..] == xs;
    } else {
      CountInsert(xs[1..], x, side);
      assert Insert(xs, x)[1..] == Insert(xs[1..], x);
    }
  }

  /** Sorting keeps every count. */
  lemma {:induction false} CountSort(xs: seq<real>, side: Side)
    ensures Count(Sort(xs), side) == Count(xs, side)
    decreases |xs|
  {
    if xs != [] {
      var pre, x := xs[..|xs| - 1], xs[|xs| - 1];
      CountSort(pre, side);
      CountInsert(Sort(pre), x, side);
      assert xs == pre + [x];
      CountSplits(pre, [x], side);
    }
  }

  lemma {:induction false} CountAll(xs: seq<real>, side: Side)
    requires forall i :: 0 <= i < |xs| ==> side.Has(xs[i])
    ensures Count(xs, side) == |xs|
    decreases |xs|
  {
    if xs != [] {
      CountAll(xs[1..], side);
    }
  }

  lemma {:induction false} CountNone(xs: seq<real>, side: Side)
    requires forall i :: 0 <= i < |xs| ==> !side.Has(xs[i])
    ensures Count(xs, side) == 0
    decreases |xs|
  {
    if xs != [] {
      CountNone(xs[1..], side);
    }
  }

  lemma {:induction false} OrderedHead(xs: seq<real>, i: nat, v: real)
    requires IsOrdered(xs) && i < |xs| && xs[i] <= v
    ensures Count(xs, AtMost(v)) >= i + 1
  {
    assert xs == xs[..i + 1] + xs[i + 1..];
    CountSplits(xs[..i + 1], xs[i + 1..], AtMost(v));
    CountAll(xs[..i + 1], AtMost(v));
  }

  lemma {:induction false} OrderedRest(xs: seq<real>, i: nat, v: real)
    requires IsOrdered(xs) && i < |xs| && xs[i] > v
    ensures Count(xs, AtMost(v)) <= i
  {
    assert xs == xs[..i] + xs[i..];
    CountSplits(xs[..i], xs[i..], AtMost(v));
    CountNone(xs[i..], AtMost(v));
    CountBound(xs[..i], AtMost(v));
  }

  /** In a sorted list the i-th value is found by counting. */
  lemma {:induction false} OrderedCount(xs: seq<real>, i: nat, v: real)
    requires IsOrdered(xs) && i < |xs|
    ensures Count(xs, AtMost(v)) > i <==> xs[i] <= v
  {
    if xs[i] <= v {
      OrderedHead(xs, i, v);
    } else {
      OrderedRest(xs, i, v);
    }
  }

  lemma {:induction false} CountBound(xs: seq<real>, side: Side)
    ensures Count(xs, side) <= |xs|
    decreases |xs|
  {
    if xs != [] {
      CountBound(xs[1..], side);
    }
  }

  /** Lists that count alike sort alike, in whatever order they come. */
  lemma {:induction false} SortByCounts(xs: seq<real>, ys: seq<real>)
    requires |xs| == |ys| && forall v :: Count(xs, AtMost(v)) == Count(ys, AtMost(v))
    ensures Sort(xs) == Sort(ys)
  {
    SortIsOrdered(xs);
    SortIsOrdered(ys);
    forall i | 0 <= i < |xs|
      ensures Sort(xs)[i] == Sort(ys)[i]
    {
      SameAt(xs, ys, i, Sort(xs)[i]);
      SameAt(xs, ys, i, Sort(ys)[i]);
    }
  }

  lemma {:induction false} SameAt(xs: seq<real>, ys: seq<real>, i: nat, v: real)
    requires |xs| == |ys| && i < |xs| == |Sort(xs)| == |Sort(ys)|
    requires Count(xs, AtMost(v)) == Count(ys, AtMost(v))
    ensures Sort(xs)[i] <= v <==> Sort(ys)[i] <= v
  {
    SortIsOrdered(xs);
    SortIsOrdered(ys);
    CountSort(xs, AtMost(v));
    CountSort(ys, AtMost(v));
    OrderedCount(Sort(xs), i, v);
    OrderedCount(Sort(ys), i, v);
  }

  /** There is only one middle. */
  lemma {:induction false} MiddleUnique(xs: seq<real>, ys: seq<real>, m: real, m': real)
    requires Sort(xs) == Sort(ys) && IsMiddle(xs, m) && IsMiddle(ys, m')
    ensures m == m'
  {
  }

  lemma {:induction false} OrderedTail(xs: seq<real>, i: nat, v: real)
    requires IsOrdered(xs) && i < |xs| && v <= xs[i]
    ensures Count(xs, AtLeast(v)) >= |xs| - i
  {
    assert xs == xs[..i] + xs[i..];
    CountSplits(xs[..i], xs[i..], AtLeast(v));
    CountAll(xs[i..], AtLeast(v));
  }

  /** At least half of the values are at most the middle, and at least half are at least it. */
  lemma {:induction false} MiddleSplits(xs: seq<real>, m: real)
    requires IsMiddle(xs, m)
    ensures Count(xs, AtMost(m)) + Count(xs, AtMost(m)) >= |xs|
    ensures Count(xs, AtLeast(m)) + Count(xs, AtLeast(m)) >= |xs|
  {
    var k: nat :| MiddleAt(Sort(xs), k, m);
    SortIsOrdered(xs);
    if xs != [] {
      CountSort(xs, AtMost(m));
      CountSort(xs, AtLeast(m));
      MiddleCounts(Sort(xs), k, m);
    }
  }

  lemma {:induction false} MiddleCounts(s: seq<real>, k: nat, m: real)
    requires s != [] && IsOrdered(s) && MiddleAt(s, k, m)
    ensures Count(s, AtMost(m)) + Count(s, AtMost(m)) >= |s|
    ensures Count(s, AtLeast(m)) + Count(s, AtLeast(m)) >= |s|
  {
    OrderedTail(s, k, m);
    if k + k == |s| {
      OrderedHead(s, k - 1, m);
    } else {
      OrderedHead(s, k, m);
    }
  }

  /** The middle lies between two of the values. */
  lemma MiddleBounds(xs: seq<real>, m: real) returns (low: real, high: real)
    requires xs != [] && IsMiddle(xs, m)
    ensures low in xs && high in xs && low <= m <= high
  {
    var k: nat :| MiddleAt(Sort(xs), k, m);
    SortIsOrdered(xs);
    var s := Sort(xs);
    high := s[k];
    low := if k + k == |s| then s[k - 1] else s[k];
    assert low in s && high in s;
  }

  /** The middle, by position in the sorted values. */
  lemma {:induction false} MiddleExactly(xs: seq<real>, m: real)
    ensures |Sort(xs)| == |xs|
    ensures IsMiddle(xs, m) <==>
            var s, n := Sort(xs), |xs|;
            if n == 0 then m == 0.0
            else if n % 2 == 1 then m == s[n / 2]
            else m == (s[n / 2 - 1] + s[n / 2]) / 2.0
  {
    SortIsOrdered(xs);
    var s, n := Sort(xs), |xs|;
    if n == 0 {
      assert MiddleAt(s, 0, m) <==> m == 0.0;
    } else {
      assert forall k :: MiddleAt(s, k, m) ==> k == n / 2;
      assert MiddleAt(s, n / 2, m) <==> if n % 2 == 1 then m == s[n / 2] else m == (s[n / 2 - 1] + s[n / 2]) / 2.0;
    }
  }
}
