/**
 The chain-answer comparison read off the log (autodrain/engine.go, matchedChain over window's
 sums): while no slot shares a bucket, what is compared is what was answered and delivered.
 */
module AutoDrainLogged {
  import opened Prelude
  import opened Sums
  import opened MinuteRing
  import opened AutoDrainCounts
  import opened AutoDrainLogs
  import opened AutoDrainWindow
  import opened AutoDrainMethodSums
  import opened AutoDrainOutlier

  /** An operator's logged answers to a method, and the chain errors among them. */
  function LoggedOwn(log: seq<Stamped<Event>>, oldest: int, op: string, meth: string): MethodCount {
    MethodCount(LogSum(log, oldest, HitOf(OfAnswers, op, meth)), LogSum(log, oldest, HitOf(OfErrors, op, meth)))
  }

  /** Everybody's. */
  function LoggedPool(log: seq<Stamped<Event>>, oldest: int, meth: string): MethodCount {
    MethodCount(LogSum(log, oldest, AnyHit(OfAnswers, meth)), LogSum(log, oldest, AnyHit(OfErrors, meth)))
  }

  /** A method the operator answered in the window, and the others at least twenty times. */
  predicate ComparableInLog(log: seq<Stamped<Event>>, oldest: int, op: string, m: string) {
    && m != OVERFLOW && LoggedOwn(log, oldest, op, m).answered > 0
    && LoggedPool(log, oldest, m).answered - LoggedOwn(log, oldest, op, m).answered >= MIN_METHOD_PEERS
  }

  ghost predicate Matches(names: set<string>, log: seq<Stamped<Event>>, oldest: int, op: string) {
    forall m :: m in names <==> ComparableInLog(log, oldest, op, m)
  }

  function LoggedAnswers(log: seq<Stamped<Event>>, oldest: int, op: string): string -> int {
    (m: string) => LoggedOwn(log, oldest, op, m).answered
  }

  function LoggedErrors(log: seq<Stamped<Event>>, oldest: int, op: string): string -> int {
    (m: string) => LoggedOwn(log, oldest, op, m).chain
  }

  /** The errors the others' logged rate on a method predicts for the operator's logged answers to it. */
  function LoggedPrediction(log: seq<Stamped<Event>>, oldest: int, op: string): string -> real {
    (m: string) => Predicted(LoggedOwn(log, oldest, op, m), LoggedPool(log, oldest, m))
  }

  /**
   matched is the operator's logged answers to those methods, share the delivered chain errors
   among them, and peers the share the others' logged rates, method by method, predict.
   */
  ghost predicate ComparesLogged(r: Comparison, log: seq<Stamped<Event>>, oldest: int, op: string) {
    exists names :: Matches(names, log, oldest, op) &&
                    IsComparison(r, SumOver(names, LoggedAnswers(log, oldest, op)), SumOver(names, LoggedErrors(log, oldest, op)),
                                 SumReals(names, LoggedPrediction(log, oldest, op)))
  }

  /** With nothing shared, what the window holds of a method is what was logged. */
  lemma HeldAsLogged(log: seq<Stamped<Event>>, now: int, totals: map<string, OpCount>,
        pool: map<string, MethodCount>, op: string, meth: string)
    requires Ordered(log) && Latest(log) <= now && op in totals && meth != OVERFLOW
    requires Totals(totals, PoolRing(log), now - SLOTS + 1) && IsPoolOf(pool, totals) && NoneShared(log, now - SLOTS + 1)
    ensures MethodAt(totals[op].fair.methods, meth) == LoggedOwn(log, now - SLOTS + 1, op, meth)
    ensures MethodAt(pool, meth) == LoggedPool(log, now - SLOTS + 1, meth)
  {
    var own, all := MethodAt(totals[op].fair.methods, meth), MethodAt(pool, meth);
    assert IsPoolAt(pool, totals, meth);
    FigureAsLogged(log, now, totals, pool, OfAnswers, op, meth);
    FigureAsLogged(log, now, totals, pool, OfErrors, op, meth);
    assert own.answered == Read(own, OfAnswers) && own.chain == Read(own, OfErrors);
    assert all.answered == Read(all, OfAnswers) && all.chain == Read(all, OfErrors);
  }

  lemma FigureAsLogged(log: seq<Stamped<Event>>, now: int, totals: map<string, OpCount>,
        pool: map<string, MethodCount>, f: Figure, op: string, meth: string)
    requires Ordered(log) && Latest(log) <= now && op in totals && meth != OVERFLOW
    requires Totals(totals, PoolRing(log), now - SLOTS + 1) && IsPoolAt(pool, totals, meth) && NoneShared(log, now - SLOTS + 1)
    ensures Read(MethodAt(totals[op].fair.methods, meth), f) == LogSum(log, now - SLOTS + 1, HitOf(f, op, meth))
    ensures Read(MethodAt(pool, meth), f) == LogSum(log, now - SLOTS + 1, AnyHit(f, meth))
  {
    var oldest := now - SLOTS + 1;
    forall x
      ensures KeptApart(log, oldest, f, x, meth)
    {
      NoneSharedKeeps(log, oldest, f, x, meth);
    }
    MethodTotalsMatchLog(log, now, totals, f, op, meth);
    PoolTotalsMatchLog(log, now, totals, pool, f, meth);
  }

  lemma LoggedNatural(log: seq<Stamped<Event>>, oldest: int, op: string, meth: string)
    ensures 0 <= LoggedOwn(log, oldest, op, meth).answered
  {
    LogSumLe(log, oldest, HitOf(OfAnswers, op, meth), HitOf(OfAnswers, op, meth));
  }

  /** What can be compared in the window is what can be compared in the log. */
  lemma MatchedAsLogged(log: seq<Stamped<Event>>, now: int, totals: map<string, OpCount>,
        pool: map<string, MethodCount>, op: string)
    requires Ordered(log) && Latest(log) <= now && op in totals
    requires Totals(totals, PoolRing(log), now - SLOTS + 1) && IsPoolOf(pool, totals) && NoneShared(log, now - SLOTS + 1)
    ensures Matches(Matched(totals[op].fair.methods, pool), log, now - SLOTS + 1, op)
  {
    var own, oldest := totals[op].fair.methods, now - SLOTS + 1;
    var names := Matched(own, pool);
    forall m
      ensures m in names <==> ComparableInLog(log, oldest, op, m)
    {
      if m != OVERFLOW {
        HeldAsLogged(log, now, totals, pool, op, m);
        LoggedNatural(log, oldest, op, m);
      }
    }
  }

  /** The others' answers in the window are at most their logged ones. */
  lemma OthersWithinLog(log: seq<Stamped<Event>>, now: int, totals: map<string, OpCount>,
        pool: map<string, MethodCount>, op: string, meth: string)
    requires Ordered(log) && Latest(log) <= now && op in totals && meth != OVERFLOW
    requires Totals(totals, PoolRing(log), now - SLOTS + 1) && IsPoolAt(pool, totals, meth)
    ensures MethodAt(totals[op].fair.methods, meth).answered <= LoggedOwn(log, now - SLOTS + 1, op, meth).answered
    ensures MethodAt(pool, meth).answered - MethodAt(totals[op].fair.methods, meth).answered <=
            LoggedPool(log, now - SLOTS + 1, meth).answered - LoggedOwn(log, now - SLOTS + 1, op, meth).answered
  {
    var g, h := ReadBy(totals, meth, OfAnswers), LoggedBy(log, now - SLOTS + 1, OfAnswers, meth);
    PoolIsSum(pool, totals, meth, OfAnswers);
    TotalsAddUp(log, now, totals, OfAnswers, meth);
    SumTakesOut(totals.Keys, g, op);
    SumTakesOut(totals.Keys, h, op);
    forall x
      ensures g(x) <= h(x)
    {
      MethodTotalsMatchLog(log, now, totals, OfAnswers, x, meth);
    }
    SumLeEqual(totals.Keys - {op}, g, h);
    assert g(op) == Read(MethodAt(totals[op].fair.methods, meth), OfAnswers);
  }

  /** Whatever is shared, what is compared in the window could be compared in the log. */
  lemma MatchedComparable(log: seq<Stamped<Event>>, now: int, totals: map<string, OpCount>,
        pool: map<string, MethodCount>, op: string)
    requires Ordered(log) && Latest(log) <= now && op in totals
    requires Totals(totals, PoolRing(log), now - SLOTS + 1) && IsPoolOf(pool, totals)
    ensures forall m :: m in Matched(totals[op].fair.methods, pool) ==> ComparableInLog(log, now - SLOTS + 1, op, m)
  {
    var own, oldest := totals[op].fair.methods, now - SLOTS + 1;
    TotalsConserve(log, totals, oldest);
    forall m | m in Matched(own, pool)
      ensures ComparableInLog(log, oldest, op, m)
    {
      assert IsPoolAt(pool, totals, m);
      OthersWithinLog(log, now, totals, pool, op, m);
    }
  }

  /** The comparison of the window's sums is the comparison of the log. */
  lemma ComparisonMatchesLog(log: seq<Stamped<Event>>, now: int, totals: map<string, OpCount>,
        pool: map<string, MethodCount>, op: string, r: Comparison)
    requires Ordered(log) && Latest(log) <= now && op in totals && Compares(r, totals[op].fair.methods, pool)
    requires Totals(totals, PoolRing(log), now - SLOTS + 1) && IsPoolOf(pool, totals) && NoneShared(log, now - SLOTS + 1)
    ensures ComparesLogged(r, log, now - SLOTS + 1, op)
  {
    var own, oldest := totals[op].fair.methods, now - SLOTS + 1;
    var names := Matched(own, pool);
    MatchedAsLogged(log, now, totals, pool, op);
    forall m | m in names
      ensures OwnAnswers(own)(m) == LoggedAnswers(log, oldest, op)(m) && OwnChain(own)(m) == LoggedErrors(log, oldest, op)(m)
      ensures PredictedIn(own, pool)(m) == LoggedPrediction(log, oldest, op)(m)
    {
      HeldAsLogged(log, now, totals, pool, op, m);
    }
    SumSame(names, OwnAnswers(own), LoggedAnswers(log, oldest, op));
    SumSame(names, OwnChain(own), LoggedErrors(log, oldest, op));
    RealSumSame(names, PredictedIn(own, pool), LoggedPrediction(log, oldest, op));
  }
}
