/** Sums over finite sets of names. */
module Sums {

  ghost function SumOver(names: set<string>, f: string -> int): int
    decreases |names|
  {
    if names == {} then 0
    else
      var x :| x in names;
      f(x) + SumOver(names - {x}, f)
  }

  /** The order of summation does not matter. */
  lemma {:induction false} SumTakesOut(names: set<string>, f: string -> int, x: string)
    requires x in names
    ensures SumOver(names, f) == f(x) + SumOver(names - {x}, f)
    decreases |names|
  {
    var y :| y in names && SumOver(names, f) == f(y) + SumOver(names - {y}, f);
    if y != x {
      SumTakesOut(names - {y}, f, x);
      SumTakesOut(names - {x}, f, y);
      assert names - {y} - {x} == names - {x} - {y};
    }
  }

  lemma {:induction false} SumSame(names: set<string>, f: string -> int, g: string -> int)
    requires forall x :: x in names ==> f(x) == g(x)
    ensures SumOver(names, f) == SumOver(names, g)
    decreases |names|
  {
    if names != {} {
      var x :| x in names;
      SumTakesOut(names, f, x);
      SumTakesOut(names, g, x);
      SumSame(names - {x}, f, g);
    }
  }

  lemma {:induction false} SumAdd(names: set<string>, f: string -> int, g: string -> int, h: string -> int)
    requires forall x :: x in names ==> h(x) == f(x) + g(x)
    ensures SumOver(names, h) == SumOver(names, f) + SumOver(names, g)
    decreases |names|
  {
    if names != {} {
      var x :| x in names;
      SumTakesOut(names, f, x);
      SumTakesOut(names, g, x);
      SumTakesOut(names, h, x);
      SumAdd(names - {x}, f, g, h);
    }
  }

  /** Names worth nothing can be left out. */
  lemma {:induction false} SumPad(names: set<string>, more: set<string>, f: string -> int)
    requires names <= more && forall x :: x in more && x !in names ==> f(x) == 0
    ensures SumOver(more, f) == SumOver(names, f)
    decreases |more|
  {
    if more != names {
      var x :| x in more && x !in names;
      SumTakesOut(more, f, x);
      SumPad(names, more - {x}, f);
    }
  }

  lemma {:induction false} SumLe(names: set<string>, f: string -> int, g: string -> int)
    requires forall x :: x in names ==> 0 <= f(x) <= g(x)
    ensures 0 <= SumOver(names, f) <= SumOver(names, g)
    decreases |names|
  {
    if names != {} {
      var x :| x in names;
      SumTakesOut(names, f, x);
      SumTakesOut(names, g, x);
      SumLe(names - {x}, f, g);
    }
  }

  /** Sums of lesser terms are equal exactly when the terms are. */
  lemma {:induction false} SumLeEqual(names: set<string>, f: string -> int, g: string -> int)
    requires forall x :: x in names ==> f(x) <= g(x)
    ensures SumOver(names, f) <= SumOver(names, g)
    ensures SumOver(names, f) == SumOver(names, g) <==> forall x :: x in names ==> f(x) == g(x)
    decreases |names|
  {
    if names != {} {
      var x :| x in names;
      SumTakesOut(names, f, x);
      SumTakesOut(names, g, x);
      SumLeEqual(names - {x}, f, g);
    }
  }

  lemma {:induction false} SumSubset(names: set<string>, more: set<string>, f: string -> int)
    requires names <= more && forall x :: x in more ==> 0 <= f(x)
    ensures 0 <= SumOver(names, f) <= SumOver(more, f)
    decreases |more|
  {
    if more == names {
      SumLe(names, f, f);
    } else {
      var x :| x in more && x !in names;
      SumTakesOut(more, f, x);
      SumSubset(names, more - {x}, f);
    }
  }

  // The same for reals.

  ghost function SumReals(names: set<string>, f: string -> real): real
    decreases |names|
  {
    if names == {} then 0.0
    else
      var x :| x in names;
      f(x) + SumReals(names - {x}, f)
  }

  lemma {:induction false} RealSumTakesOut(names: set<string>, f: string -> real, x: string)
    requires x in names
    ensures SumReals(names, f) == f(x) + SumReals(names - {x}, f)
    decreases |names|
  {
    var y :| y in names && SumReals(names, f) == f(y) + SumReals(names - {y}, f);
    if y != x {
      RealSumTakesOut(names - {y}, f, x);
      RealSumTakesOut(names - {x}, f, y);
      assert names - {y} - {x} == names - {x} - {y};
    }
  }

  lemma {:induction false} RealSumSame(names: set<string>, f: string -> real, g: string -> real)
    requires forall x :: x in names ==> f(x) == g(x)
    ensures SumReals(names, f) == SumReals(names, g)
    decreases |names|
  {
    if names != {} {
      var x :| x in names;
      RealSumTakesOut(names, f, x);
      RealSumTakesOut(names, g, x);
      RealSumSame(names - {x}, f, g);
    }
  }

  lemma {:induction false} RealSumBound(names: set<string>, f: string -> real, g: string -> int)
    requires forall x :: x in names ==> 0.0 <= f(x) <= g(x) as real
    ensures 0.0 <= SumReals(names, f) <= SumOver(names, g) as real
    decreases |names|
  {
    if names != {} {
      var x :| x in names;
      RealSumTakesOut(names, f, x);
      SumTakesOut(names, g, x);
      RealSumBound(names - {x}, f, g);
    }
  }
}
