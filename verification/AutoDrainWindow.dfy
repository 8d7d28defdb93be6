/**
 Summing the window (autodrain/engine.go, window): each operator's totals over the
 live slots, and the pool's totals per method.
 */
module AutoDrainWindow {
  import opened Prelude
  import opened Sums
  import opened MinuteRing
  import opened AutoDrainCounts

  function AddCounts(a: MethodCount, b: MethodCount): MethodCount {
    MethodCount(a.answered + b.answered, a.chain + b.chain)
  }

  /** Two counts by method, added name by name. */
  function AddMethods(a: map<string, MethodCount>, b: map<string, MethodCount>): map<string, MethodCount> {
    map m | m in a.Keys + b.Keys :: if m !in b then a[m] else if m !in a then b[m] else AddCounts(a[m], b[m])
  }

  function AddTraffic(a: Traffic, b: Traffic): Traffic {
    Traffic(a.attempts + b.attempts, a.successes + b.successes)
  }

  function AddSample(a: Sample, b: Sample): Sample {
    Sample(a.firsts + b.firsts, a.firstFails + b.firstFails, AddMethods(a.methods, b.methods))
  }

  function AddOp(a: OpCount, b: OpCount): OpCount {
    OpCount(a.picks + b.picks, AddTraffic(a.traffic, b.traffic), AddSample(a.fair, b.fair))
  }

  /** An operator that was not seen adds nothing. */
  function Add(a: Option<OpCount>, b: Option<OpCount>): Option<OpCount> {
    if b.None? then a else if a.None? then b else Some(AddOp(a.value, b.value))
  }

  /** What one slot adds to an operator's total. */
  function Share(s: Slot<Minute>, oldest: int, op: string): Option<OpCount> {
    if s.minute >= oldest then Lookup(s.body.ops, op) else None
  }

  /** One operator's total over the slots not older than `oldest`. */
  function WindowTotal(ring: seq<Slot<Minute>>, oldest: int, op: string): Option<OpCount> {
    if ring == [] then None
    else Add(WindowTotal(ring[..|ring| - 1], oldest, op), Share(ring[|ring| - 1], oldest, op))
  }

  function Counted(c: Option<OpCount>, which: Counter): int {
    if c.None? then 0 else ReadCounter(c.value, which)
  }

  /** The totals are the window sums of their counters. */
  lemma {:induction false} TotalIsWindowSum(ring: seq<Slot<Minute>>, oldest: int, op: string, which: Counter)
    ensures Counted(WindowTotal(ring, oldest, op), which) == WindowSum(ring, oldest, CounterOf(which, op))
    decreases |ring|
  {
    if ring != [] {
      TotalIsWindowSum(ring[..|ring| - 1], oldest, op, which);
    }
  }

  // ----------------------------------------------------------- conservation

  lemma AddedTotal(a: map<string, MethodCount>, b: map<string, MethodCount>)
    ensures TotalAnswered(AddMethods(a, b)) == TotalAnswered(a) + TotalAnswered(b)
  {
    var all := a.Keys + b.Keys;
    assert AddMethods(a, b).Keys == all;
    SumAdd(all, AnsweredIn(a), AnsweredIn(b), AnsweredIn(AddMethods(a, b)));
    SumPad(a.Keys, all, AnsweredIn(a));
    SumPad(b.Keys, all, AnsweredIn(b));
  }

  lemma AddedChain(a: map<string, MethodCount>, b: map<string, MethodCount>)
    requires ChainWithin(a) && ChainWithin(b)
    ensures ChainWithin(AddMethods(a, b))
  {
    forall m
      ensures 0 <= MethodAt(AddMethods(a, b), m).chain <= MethodAt(AddMethods(a, b), m).answered
    {
      assert 0 <= MethodAt(a, m).chain <= MethodAt(a, m).answered;
      assert 0 <= MethodAt(b, m).chain <= MethodAt(b, m).answered;
    }
  }

  ghost predicate OpConserves(c: Option<OpCount>) {
    c.Some? ==> Conserves(c.value.fair)
  }

  lemma AddConserves(a: Option<OpCount>, b: Option<OpCount>)
    requires OpConserves(a) && OpConserves(b)
    ensures OpConserves(Add(a, b))
  {
    if a.Some? && b.Some? {
      AddedTotal(a.value.fair.methods, b.value.fair.methods);
      AddedChain(a.value.fair.methods, b.value.fair.methods);
    }
  }

  lemma ShareConserves(s: Slot<Minute>, oldest: int, op: string)
    requires MinuteConserves(s.body)
    ensures OpConserves(Share(s, oldest, op))
  {
    assert Conserves(OpAt(s.body.ops, op).fair);
  }

  /** Every operator's total adds up: fair attempts less failures are its answers, summed over methods. */
  lemma {:induction false} TotalConserves(ring: seq<Slot<Minute>>, oldest: int, op: string)
    requires RingConserves(ring)
    ensures OpConserves(WindowTotal(ring, oldest, op))
    decreases |ring|
  {
    if ring != [] {
      var n := |ring| - 1;
      TotalConserves(ring[..n], oldest, op);
      ShareConserves(ring[n], oldest, op);
      AddConserves(WindowTotal(ring[..n], oldest, op), Share(ring[n], oldest, op));
    }
  }

  // ------------------------------------------------- per method, per pool

  /** An operator's answers to a method. */
  function Answered(totals: map<string, OpCount>, op: string, m: string): int {
    if op in totals then MethodAt(totals[op].fair.methods, m).answered else 0
  }

  function ChainErrors(totals: map<string, OpCount>, op: string, m: string): int {
    if op in totals then MethodAt(totals[op].fair.methods, m).chain else 0
  }

  function AnsweredBy(totals: map<string, OpCount>, m: string): string -> int {
    (op: string) => Answered(totals, op, m)
  }

  function ChainBy(totals: map<string, OpCount>, m: string): string -> int {
    (op: string) => ChainErrors(totals, op, m)
  }

  /** The pool's count of a method is the sum of its operators'. */
  ghost predicate IsPoolAt(pool: map<string, MethodCount>, totals: map<string, OpCount>, m: string) {
    && MethodAt(pool, m).answered == SumOver(totals.Keys, AnsweredBy(totals, m))
    && MethodAt(pool, m).chain == SumOver(totals.Keys, ChainBy(totals, m))
  }

  ghost predicate IsPoolOf(pool: map<string, MethodCount>, totals: map<string, OpCount>) {
    forall m :: IsPoolAt(pool, totals, m)
  }

  /** Replacing one operator's count moves the sum by the difference. */
  lemma {:induction false} SumReplaced(names: set<string>, f: string -> int, g: string -> int, x: string)
    requires forall y :: y in names && y != x ==> f(y) == g(y)
    requires x !in names ==> f(x) == 0
    ensures SumOver(names + {x}, g) == SumOver(names, f) - f(x) + g(x)
  {
    SumTakesOut(names + {x}, g, x);
    assert names + {x} - {x} == names - {x};
    SumSame(names - {x}, f, g);
    if x in names {
      SumTakesOut(names, f, x);
    } else {
      assert names - {x} == names;
    }
  }

  /** Adding one operator's minute to its total and to the pool keeps the pool the sum. */
  lemma PoolKept(pool: map<string, MethodCount>, totals: map<string, OpCount>, x: string, after: OpCount,
        add: map<string, MethodCount>, m: string)
    requires IsPoolAt(pool, totals, m)
    requires MethodAt(after.fair.methods, m).answered == Answered(totals, x, m) + MethodAt(add, m).answered
    requires MethodAt(after.fair.methods, m).chain == ChainErrors(totals, x, m) + MethodAt(add, m).chain
    ensures IsPoolAt(AddMethods(pool, add), totals[x := after], m)
  {
    AddedAt(pool, add, m);
    AnswersReplaced(totals, x, after, m);
    ChainReplaced(totals, x, after, m);
  }

  lemma AddedAt(a: map<string, MethodCount>, b: map<string, MethodCount>, m: string)
    ensures MethodAt(AddMethods(a, b), m).answered == MethodAt(a, m).answered + MethodAt(b, m).answered
    ensures MethodAt(AddMethods(a, b), m).chain == MethodAt(a, m).chain + MethodAt(b, m).chain
  {
  }

  lemma AnswersReplaced(totals: map<string, OpCount>, x: string, after: OpCount, m: string)
    ensures SumOver(totals[x := after].Keys, AnsweredBy(totals[x := after], m)) ==
            SumOver(totals.Keys, AnsweredBy(totals, m)) - Answered(totals, x, m) + MethodAt(after.fair.methods, m).answered
  {
    var totals' := totals[x := after];
    assert totals'.Keys == totals.Keys + {x};
    SumReplaced(totals.Keys, AnsweredBy(totals, m), AnsweredBy(totals', m), x);
  }

  lemma ChainReplaced(totals: map<string, OpCount>, x: string, after: OpCount, m: string)
    ensures SumOver(totals[x := after].Keys, ChainBy(totals[x := after], m)) ==
            SumOver(totals.Keys, ChainBy(totals, m)) - ChainErrors(totals, x, m) + MethodAt(after.fair.methods, m).chain
  {
    var totals' := totals[x := after];
    assert totals'.Keys == totals.Keys + {x};
    SumReplaced(totals.Keys, ChainBy(totals, m), ChainBy(totals', m), x);
  }

  /** What the others answered is at least their chain errors, and neither is negative. */
  lemma PeersAddUp(pool: map<string, MethodCount>, totals: map<string, OpCount>, op: string, m: string)
    requires IsPoolAt(pool, totals, m) && op in totals && forall x :: x in totals ==> ChainWithin(totals[x].fair.methods)
    ensures var c, p := MethodAt(totals[op].fair.methods, m), MethodAt(pool, m);
            0 <= p.chain - c.chain <= p.answered - c.answered
  {
    SumTakesOut(totals.Keys, AnsweredBy(totals, m), op);
    SumTakesOut(totals.Keys, ChainBy(totals, m), op);
    SumLe(totals.Keys - {op}, ChainBy(totals, m), AnsweredBy(totals, m));
  }

  // ------------------------------------------------------ the window's loop

  /** The totals after adding the minute's operators not in `todo`. */
  ghost predicate Added(totals: map<string, OpCount>, before: map<string, OpCount>, ops: map<string, OpCount>,
        todo: set<string>) {
    forall op :: Lookup(totals, op) == if op in todo then Lookup(before, op) else Add(Lookup(before, op), Lookup(ops, op))
  }

  /** One live slot, added operator by operator to the totals and to the pool's methods. */
  method AddMinute(before: map<string, OpCount>, pool: map<string, MethodCount>, ops: map<string, OpCount>)
    returns (totals: map<string, OpCount>, poolMethods: map<string, MethodCount>)
    requires IsPoolOf(pool, before)
    ensures Added(totals, before, ops, {})
    ensures IsPoolOf(poolMethods, totals)
  {
    totals, poolMethods := before, pool;
    var todo := ops.Keys;
    while todo != {}
      invariant todo <= ops.Keys
      invariant Added(totals, before, ops, todo)
      invariant IsPoolOf(poolMethods, totals)
      decreases |todo|
    {
      var name :| name in todo;
      todo := todo - {name};
      var c := ops[name];
      var t := if name in totals then AddOp(totals[name], c) else c;
      PoolKeptAll(poolMethods, totals, name, c, t);
      totals, poolMethods := totals[name := t], AddMethods(poolMethods, c.fair.methods);
    }
  }

  lemma PoolKeptAll(pool: map<string, MethodCount>, totals: map<string, OpCount>, x: string, c: OpCount, after: OpCount)
    requires IsPoolOf(pool, totals)
    requires after == if x in totals then AddOp(totals[x], c) else c
    ensures IsPoolOf(AddMethods(pool, c.fair.methods), totals[x := after])
  {
    var pool', totals' := AddMethods(pool, c.fair.methods), totals[x := after];
    forall m
      ensures IsPoolAt(pool', totals', m)
    {
      assert IsPoolAt(pool, totals, m);
      PoolKept(pool, totals, x, after, c.fair.methods, m);
    }
  }

  lemma EmptyPool(pool: map<string, MethodCount>, totals: map<string, OpCount>)
    requires pool.Keys == {} == totals.Keys
    ensures IsPoolOf(pool, totals)
  {
  }

  /** Every operator's total is the sum over the live slots. */
  ghost predicate Totals(totals: map<string, OpCount>, ring: seq<Slot<Minute>>, oldest: int) {
    forall op :: Lookup(totals, op) == WindowTotal(ring, oldest, op)
  }

  lemma SkippedSlot(totals: map<string, OpCount>, ring: seq<Slot<Minute>>, oldest: int)
    requires |ring| > 0 && ring[|ring| - 1].minute < oldest
    requires Totals(totals, ring[..|ring| - 1], oldest)
    ensures Totals(totals, ring, oldest)
  {
    forall op
      ensures Lookup(totals, op) == WindowTotal(ring, oldest, op)
    {
      assert Lookup(totals, op) == WindowTotal(ring[..|ring| - 1], oldest, op);
    }
  }

  lemma AddedSlot(totals: map<string, OpCount>, before: map<string, OpCount>, ring: seq<Slot<Minute>>, oldest: int)
    requires |ring| > 0 && ring[|ring| - 1].minute >= oldest
    requires Totals(before, ring[..|ring| - 1], oldest)
    requires Added(totals, before, ring[|ring| - 1].body.ops, {})
    ensures Totals(totals, ring, oldest)
  {
    forall op
      ensures Lookup(totals, op) == WindowTotal(ring, oldest, op)
    {
      assert Lookup(before, op) == WindowTotal(ring[..|ring| - 1], oldest, op);
    }
  }

  /** Sums one pool's live slots: collapses, operators' totals and the pool's methods. */
  method SumSlots(ring: seq<Slot<Minute>>, oldest: int)
    returns (collapse: int, totals: map<string, OpCount>, poolMethods: map<string, MethodCount>)
    ensures collapse == WindowSum(ring, oldest, Collapses())
    ensures Totals(totals, ring, oldest)
    ensures IsPoolOf(poolMethods, totals)
  {
    collapse, totals, poolMethods := 0, map[], map[];
    EmptyPool(poolMethods, totals);
    for i := 0 to |ring|
      invariant collapse == WindowSum(ring[..i], oldest, Collapses())
      invariant Totals(totals, ring[..i], oldest)
      invariant IsPoolOf(poolMethods, totals)
    {
      ghost var upto := ring[..i + 1];
      assert upto[..i] == ring[..i];
      if ring[i].minute < oldest {
        SkippedSlot(totals, upto, oldest);
      } else {
        collapse := collapse + ring[i].body.collapse;
        ghost var before := totals;
        totals, poolMethods := AddMinute(totals, poolMethods, ring[i].body.ops);
        AddedSlot(totals, before, upto, oldest);
      }
    }
    assert ring[..|ring|] == ring;
  }
}
