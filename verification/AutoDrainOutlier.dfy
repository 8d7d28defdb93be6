/**
 The chain-answer comparison (autodrain/engine.go, matchedChain): an operator's
 chain errors against what its peers' per-method rates predict, over the methods
 the peers answered often enough.
 */
module AutoDrainOutlier {
  import opened Prelude
  import opened Sums
  import opened MinuteRing
  import opened AutoDrainCounts
  import opened AutoDrainWindow

  const MIN_METHOD_PEERS := 20
  const CHAIN_GAP := 0.20
  const CHAIN_RATIO := 3.0

  /** A method with enough answers from the other operators; the shared bucket never is. */
  predicate Comparable(own: map<string, MethodCount>, pool: map<string, MethodCount>, name: string) {
    && name in own && name != OVERFLOW && own[name].answered != 0
    && MethodAt(pool, name).answered - own[name].answered >= MIN_METHOD_PEERS
  }

  function Matched(own: map<string, MethodCount>, pool: map<string, MethodCount>): set<string> {
    set name | name in own && Comparable(own, pool, name)
  }

  function OwnAnswers(own: map<string, MethodCount>): string -> int {
    (name: string) => MethodAt(own, name).answered
  }

  function OwnChain(own: map<string, MethodCount>): string -> int {
    (name: string) => MethodAt(own, name).chain
  }

  function Over(part: real, whole: int): real
    requires whole != 0
  {
    part / whole as real
  }

  /** The chain errors the peers' rate on a method predicts for the operator's answers to it. */
  function Predicted(c: MethodCount, p: MethodCount): real {
    if p.answered == c.answered then 0.0
    else Over((p.chain - c.chain) as real, p.answered - c.answered) * c.answered as real
  }

  function PredictedIn(own: map<string, MethodCount>, pool: map<string, MethodCount>): string -> real {
    (name: string) => Predicted(MethodAt(own, name), MethodAt(pool, name))
  }

  datatype Comparison = Comparison(matched: int, share: real, peers: real, excess: real, outlier: bool)

  /** The comparison that three sums give. */
  ghost predicate IsComparison(r: Comparison, matched: int, chain: int, expected: real) {
    && r.matched == matched
    && if matched < MIN_ATTEMPTS then r.share == r.peers == r.excess == 0.0 && !r.outlier
       else
         && r.share == Over(chain as real, matched)
         && r.peers == Over(expected, matched)
         && r.excess == chain as real - expected
         && (r.outlier <==> r.share - r.peers >= CHAIN_GAP && r.share >= CHAIN_RATIO * r.peers)
  }

  ghost predicate Compares(r: Comparison, own: map<string, MethodCount>, pool: map<string, MethodCount>) {
    var names := Matched(own, pool);
    IsComparison(r, SumOver(names, OwnAnswers(own)), SumOver(names, OwnChain(own)), SumReals(names, PredictedIn(own, pool)))
  }

  /** Compares an operator's answers by method with its pool's. */
  method MatchedChain(own: map<string, MethodCount>, pool: map<string, MethodCount>) returns (r: Comparison)
    ensures Compares(r, own, pool)
  {
    var matched, chain, expected := SumMatched(own, pool, PredictedIn(own, pool));
    if matched < MIN_ATTEMPTS {
      return Comparison(matched, 0.0, 0.0, 0.0, false);
    }
    var share, peers := Over(chain as real, matched), Over(expected, matched);
    r := Comparison(matched, share, peers, chain as real - expected, share - peers >= CHAIN_GAP && share >= CHAIN_RATIO * peers);
  }

  /** The three sums over some methods. */
  ghost predicate Tallied(own: map<string, MethodCount>, predicted: string -> real, names: set<string>,
        matched: int, chain: int, expected: real) {
    && matched == SumOver(names, OwnAnswers(own))
    && chain == SumOver(names, OwnChain(own))
    && expected == SumReals(names, predicted)
  }

  /** Goes through the operator's methods, adding up those that can be compared. */
  method SumMatched(own: map<string, MethodCount>, pool: map<string, MethodCount>, predicted: string -> real)
    returns (matched: int, chain: int, expected: real)
    ensures Tallied(own, predicted, Matched(own, pool), matched, chain, expected)
  {
    matched, chain, expected := 0, 0, 0.0;
    var todo := own.Keys;
    ghost var done: set<string> := {};
    while todo != {}
      invariant todo <= own.Keys && done !! todo
      invariant GoneThrough(own, pool, todo, done)
      invariant Tallied(own, predicted, done, matched, chain, expected)
      decreases |todo|
    {
      var name :| name in todo;
      OneGone(own, pool, todo, done, name);
      todo := todo - {name};
      if Comparable(own, pool, name) {
        OneMethodMore(own, predicted, done, name, matched, chain, expected);
        matched, chain, expected := matched + own[name].answered, chain + own[name].chain, expected + predicted(name);
        done := done + {name};
      }
    }
    AllGone(own, pool, done);
  }

  /** `done` is what can be compared among the methods no longer in `todo`. */
  ghost predicate GoneThrough(own: map<string, MethodCount>, pool: map<string, MethodCount>, todo: set<string>,
        done: set<string>) {
    forall name :: name in done <==> name in own && name !in todo && Comparable(own, pool, name)
  }

  lemma OneGone(own: map<string, MethodCount>, pool: map<string, MethodCount>, todo: set<string>,
        done: set<string>, name: string)
    requires GoneThrough(own, pool, todo, done) && name in todo && name in own
    ensures GoneThrough(own, pool, todo - {name}, if Comparable(own, pool, name) then done + {name} else done)
  {
  }

  lemma AllGone(own: map<string, MethodCount>, pool: map<string, MethodCount>, done: set<string>)
    requires GoneThrough(own, pool, {}, done)
    ensures done == Matched(own, pool)
  {
  }

  lemma OneMethodMore(own: map<string, MethodCount>, predicted: string -> real, done: set<string>, name: string,
        matched: int, chain: int, expected: real)
    requires name !in done && name in own && Tallied(own, predicted, done, matched, chain, expected)
    ensures Tallied(own, predicted, done + {name}, matched + own[name].answered, chain + own[name].chain, expected + predicted(name))
  {
    assert done + {name} - {name} == done;
    SumTakesOut(done + {name}, OwnAnswers(own), name);
    SumTakesOut(done + {name}, OwnChain(own), name);
    RealSumTakesOut(done + {name}, predicted, name);
  }

  // ------------------------------------------------------------------ bounds

  /** The others' chain errors are among the others' answers. */
  ghost predicate PeersWithin(own: map<string, MethodCount>, pool: map<string, MethodCount>) {
    forall m :: 0 <= MethodAt(pool, m).chain - MethodAt(own, m).chain <= MethodAt(pool, m).answered - MethodAt(own, m).answered
  }

  lemma QuotientTimes(part: real, whole: real)
    requires whole > 0.0
    ensures part / whole * whole == part
  {
  }

  lemma TimesWithin(x: real, whole: real)
    requires whole > 0.0 && 0.0 <= x * whole <= whole
    ensures 0.0 <= x <= 1.0
  {
    assert x < 0.0 ==> x * whole < 0.0;
    assert x > 1.0 ==> (x - 1.0) * whole > 0.0;
  }

  lemma QuotientWithin(part: real, whole: int)
    requires whole > 0 && 0.0 <= part <= whole as real
    ensures 0.0 <= Over(part, whole) <= 1.0
    ensures Over(part, whole) * whole as real == part
  {
    QuotientTimes(part, whole as real);
    TimesWithin(Over(part, whole), whole as real);
  }

  lemma PartWithin(rate: real, whole: real)
    requires 0.0 <= rate <= 1.0 && whole >= 0.0
    ensures 0.0 <= rate * whole <= whole
  {
    assert (1.0 - rate) * whole >= 0.0;
  }

  lemma PredictedWithin(c: MethodCount, p: MethodCount)
    requires 0 <= c.answered && 0 <= p.chain - c.chain <= p.answered - c.answered
    ensures 0.0 <= Predicted(c, p) <= c.answered as real
  {
    if p.answered != c.answered {
      var rate := Over((p.chain - c.chain) as real, p.answered - c.answered);
      QuotientWithin((p.chain - c.chain) as real, p.answered - c.answered);
      PartWithin(rate, c.answered as real);
      assert Predicted(c, p) == rate * c.answered as real;
    }
  }

  lemma {:induction false} SumsWithin(own: map<string, MethodCount>, pool: map<string, MethodCount>, names: set<string>)
    requires ChainWithin(own) && PeersWithin(own, pool)
    ensures 0 <= SumOver(names, OwnChain(own)) <= SumOver(names, OwnAnswers(own))
    ensures 0.0 <= SumReals(names, PredictedIn(own, pool)) <= SumOver(names, OwnAnswers(own)) as real
  {
    forall m | m in names
      ensures 0 <= OwnChain(own)(m) <= OwnAnswers(own)(m)
      ensures 0.0 <= PredictedIn(own, pool)(m) <= OwnAnswers(own)(m) as real
    {
      assert 0 <= MethodAt(own, m).chain <= MethodAt(own, m).answered;
      assert 0 <= MethodAt(pool, m).chain - MethodAt(own, m).chain <= MethodAt(pool, m).answered - MethodAt(own, m).answered;
      PredictedWithin(MethodAt(own, m), MethodAt(pool, m));
    }
    SumLe(names, OwnChain(own), OwnAnswers(own));
    RealSumBound(names, PredictedIn(own, pool), OwnAnswers(own));
  }

  lemma Factored(a: real, b: real, m: real)
    ensures a * m - b * m == (a - b) * m
  {
  }

  lemma TimesMonotone(a: real, b: real, m: real)
    requires a >= b && m >= 0.0
    ensures a * m >= b * m
  {
  }

  /** A share that is a gap above its peers' is that gap's worth of errors above them. */
  lemma Excess(share: real, peers: real, m: real, chain: real, expected: real)
    requires share * m == chain && peers * m == expected && m >= 50.0
    ensures chain - expected == (share - peers) * m
    ensures share - peers >= CHAIN_GAP ==> chain - expected >= CHAIN_GAP * m >= 10.0
  {
    Factored(share, peers, m);
    if share - peers >= CHAIN_GAP {
      TimesMonotone(share - peers, CHAIN_GAP, m);
    }
  }

  lemma AtLeastTimes(x: real, y: real, m: real)
    requires m > 0.0
    ensures x >= y <==> x * m >= y * m
  {
    if x >= y {
      TimesMonotone(x, y, m);
    } else {
      Factored(y, x, m);
      assert (y - x) * m > 0.0;
    }
  }

  /** An outlier, by its sums: enough answers, the gap's worth of errors above the prediction, and three times as many. */
  lemma OutlierExactlyWhen(r: Comparison, matched: int, chain: int, expected: real)
    requires IsComparison(r, matched, chain, expected)
    requires 0 <= chain <= matched && 0.0 <= expected <= matched as real
    ensures r.matched == matched
    ensures r.outlier <==> matched >= 50 && chain as real - expected >= 0.20 * matched as real && chain as real >= 3.0 * expected
    ensures matched >= 50 ==> r.share * matched as real == chain as real && r.peers * matched as real == expected
    ensures r.excess == if matched >= 50 then chain as real - expected else 0.0
  {
    if matched >= MIN_ATTEMPTS {
      QuotientWithin(chain as real, matched);
      QuotientWithin(expected, matched);
      InErrors(r.share, r.peers, matched as real, chain as real, expected);
    }
  }

  /** The two tests on shares, in errors. */
  lemma InErrors(share: real, peers: real, m: real, chain: real, expected: real)
    requires share * m == chain && peers * m == expected && m > 0.0
    ensures share - peers >= CHAIN_GAP <==> chain - expected >= CHAIN_GAP * m
    ensures share >= CHAIN_RATIO * peers <==> chain >= CHAIN_RATIO * expected
  {
    Factored(share, peers, m);
    AtLeastTimes(share - peers, CHAIN_GAP, m);
    AtLeastTimes(share, CHAIN_RATIO * peers, m);
    Associated(CHAIN_RATIO, peers, m);
  }

  lemma Associated(a: real, b: real, m: real)
    ensures a * b * m == a * (b * m)
  {
  }

  lemma ComparisonWithin(r: Comparison, matched: int, chain: int, expected: real)
    requires IsComparison(r, matched, chain, expected)
    requires 0 <= chain <= matched && 0.0 <= expected <= matched as real
    ensures 0.0 <= r.share <= 1.0 && 0.0 <= r.peers <= 1.0
    ensures r.outlier ==> r.excess >= CHAIN_GAP * matched as real >= 10.0
  {
    if matched >= MIN_ATTEMPTS {
      QuotientWithin(chain as real, matched);
      QuotientWithin(expected, matched);
      Excess(r.share, r.peers, matched as real, chain as real, expected);
    }
  }

  /**
   Over any log: an operator's share and the share its peers predict lie in [0, 1], what is
   compared is among the fair answers of the last ten minutes, and an outlier delivered at least
   ten chain errors more than its peers' rates predict.
   */
  lemma WindowComparison(log: seq<Stamped<Event>>, now: int, totals: map<string, OpCount>,
        pool: map<string, MethodCount>, op: string, r: Comparison)
    requires Ordered(log) && Latest(log) <= now && op in totals
    requires Totals(totals, RingAfter(log, EMPTY_MINUTE, Count), now - SLOTS + 1) && IsPoolOf(pool, totals)
    requires Compares(r, totals[op].fair.methods, pool)
    ensures 0.0 <= r.share <= 1.0 && 0.0 <= r.peers <= 1.0
    ensures 0 <= r.matched <= LogSum(log, now - SLOTS + 1, IsAnswer(op))
    ensures r.outlier ==> r.excess >= CHAIN_GAP * r.matched as real >= 10.0
  {
    var ring, oldest, own := RingAfter(log, EMPTY_MINUTE, Count), now - SLOTS + 1, totals[op].fair.methods;
    TotalsConserve(log, totals, oldest);
    WithinPool(pool, totals, op);
    var names := Matched(own, pool);
    SumsWithin(own, pool, names);
    ComparisonWithin(r, SumOver(names, OwnAnswers(own)), SumOver(names, OwnChain(own)), SumReals(names, PredictedIn(own, pool)));
    MatchedAmongAnswers(log, now, totals, pool, op);
  }

  lemma {:induction false} TotalsConserve(log: seq<Stamped<Event>>, totals: map<string, OpCount>, oldest: int)
    requires Totals(totals, RingAfter(log, EMPTY_MINUTE, Count), oldest)
    ensures forall op :: op in totals ==> Conserves(totals[op].fair)
  {
    SlotsConserve(log, EMPTY_MINUTE);
    forall op | op in totals
      ensures Conserves(totals[op].fair)
    {
      TotalConserves(RingAfter(log, EMPTY_MINUTE, Count), oldest, op);
      assert Lookup(totals, op) == WindowTotal(RingAfter(log, EMPTY_MINUTE, Count), oldest, op);
    }
  }

  lemma WithinPool(pool: map<string, MethodCount>, totals: map<string, OpCount>, op: string)
    requires IsPoolOf(pool, totals) && op in totals && forall x :: x in totals ==> Conserves(totals[x].fair)
    ensures PeersWithin(totals[op].fair.methods, pool)
  {
    forall m
      ensures 0 <= MethodAt(pool, m).chain - MethodAt(totals[op].fair.methods, m).chain <=
              MethodAt(pool, m).answered - MethodAt(totals[op].fair.methods, m).answered
    {
      assert IsPoolAt(pool, totals, m);
      PeersAddUp(pool, totals, op, m);
    }
  }

  lemma MatchedAmongAnswers(log: seq<Stamped<Event>>, now: int, totals: map<string, OpCount>,
        pool: map<string, MethodCount>, op: string)
    requires Ordered(log) && Latest(log) <= now && op in totals
    requires Totals(totals, RingAfter(log, EMPTY_MINUTE, Count), now - SLOTS + 1)
    ensures var own := totals[op].fair.methods;
            0 <= SumOver(Matched(own, pool), OwnAnswers(own)) <= LogSum(log, now - SLOTS + 1, IsAnswer(op))
  {
    var oldest, own := now - SLOTS + 1, totals[op].fair.methods;
    TotalsConserve(log, totals, oldest);
    assert Conserves(totals[op].fair);
    forall m | m in own
      ensures 0 <= OwnAnswers(own)(m)
    {
      assert 0 <= MethodAt(own, m).chain <= MethodAt(own, m).answered;
    }
    SumSubset(Matched(own, pool), own.Keys, OwnAnswers(own));
    SumSame(own.Keys, OwnAnswers(own), AnsweredIn(own));
    FairAnswers(log, now, totals, op);
  }

  /** Fair attempts less failures, as the window totals them, are the logged answers. */
  lemma FairAnswers(log: seq<Stamped<Event>>, now: int, totals: map<string, OpCount>, op: string)
    requires Ordered(log) && Latest(log) <= now && op in totals
    requires Totals(totals, RingAfter(log, EMPTY_MINUTE, Count), now - SLOTS + 1)
    ensures totals[op].fair.firsts - totals[op].fair.firstFails == LogSum(log, now - SLOTS + 1, IsAnswer(op))
  {
    var ring, oldest := RingAfter(log, EMPTY_MINUTE, Count), now - SLOTS + 1;
    assert Lookup(totals, op) == WindowTotal(ring, oldest, op);
    TotalIsWindowSum(ring, oldest, op, Firsts);
    TotalIsWindowSum(ring, oldest, op, FirstFails);
    CountersMatchLog(log, Firsts, op, now);
    CountersMatchLog(log, FirstFails, op, now);
    AnswersAreTheRest(log, oldest, op);
  }

  lemma {:induction false} AnswersAreTheRest(log: seq<Stamped<Event>>, oldest: int, op: string)
    ensures LogSum(log, oldest, WorthOf(Firsts, op)) - LogSum(log, oldest, WorthOf(FirstFails, op)) == LogSum(log, oldest, IsAnswer(op))
    decreases |log|
  {
    if log != [] {
      AnswersAreTheRest(log[..|log| - 1], oldest, op);
    }
  }
}
