/**
 The pool-wide guard (autodrain/engine.go, peerCompare): a candidate that fails no worse
 than the median of the pool's other operators, by a ratio, is the pool's trouble and
 not its own.
 */
module AutoDrainPeers {
  import opened Prelude
  import opened Medians
  import AutoDrainCounts

  const MIN_ATTEMPTS := AutoDrainCounts.MIN_ATTEMPTS

  /** One operator's window, as the comparison reads it. */
  datatype View = View(attempts: int, firsts: int, success: real, firstSuccess: real, rate: real, rateOK: bool)

  datatype Trigger = ByCollapse | ByChainAnswers | ByOperatorRate

  /** The candidate's own figures and what raised it. */
  datatype Candidate = Candidate(trigger: Trigger, operatorRate: real, successRate: real, firstAttempts: int, firstSuccess: real)

  /** What the comparison sets: how many peers, their medians, the mark. */
  datatype Reading = Reading(peers: int, operatorRate: real, successRate: real, firstSuccess: real, poolWide: bool)

  function Peers(views: map<string, View>, self: string): set<string> {
    set x | x in views && x != self && views[x].attempts >= MIN_ATTEMPTS
  }

  function RatePeers(views: map<string, View>, self: string): set<string> {
    set x | x in views && x != self && views[x].attempts >= MIN_ATTEMPTS && views[x].rateOK
  }

  function FirstPeers(views: map<string, View>, self: string): set<string> {
    set x | x in views && x != self && views[x].attempts >= MIN_ATTEMPTS && views[x].firsts >= MIN_ATTEMPTS
  }

  function RatesIn(views: map<string, View>): map<string, real> {
    map x | x in views :: views[x].rate
  }

  function SuccessIn(views: map<string, View>): map<string, real> {
    map x | x in views :: views[x].success
  }

  function FirstSuccessIn(views: map<string, View>): map<string, real> {
    map x | x in views :: views[x].firstSuccess
  }

  // ------------------------------------------------- a list of a set's values

  /** `xs` lists the values of `names`, each name once, in some order. */
  ghost predicate Lists(xs: seq<real>, names: set<string>, f: map<string, real>)
    decreases |xs|
  {
    if xs == [] then names == {}
    else exists x :: x in names && x in f && xs[|xs| - 1] == f[x] && Lists(xs[..|xs| - 1], names - {x}, f)
  }

  ghost predicate IsMedian(names: set<string>, f: map<string, real>, m: real) {
    exists xs :: Lists(xs, names, f) && IsMiddle(xs, m)
  }

  lemma {:induction false} ListsMore(xs: seq<real>, names: set<string>, f: map<string, real>, x: string)
    requires Lists(xs, names, f) && x !in names && x in f
    ensures Lists(xs + [f[x]], names + {x}, f)
  {
    var ys := xs + [f[x]];
    assert ys[..|ys| - 1] == xs;
    assert names + {x} - {x} == names;
  }

  function Having(names: set<string>, f: map<string, real>, side: Side): set<string> {
    set x | x in names && x in f && side.Has(f[x])
  }

  /** Counting in a list is counting names. */
  lemma {:induction false} ListsCount(xs: seq<real>, names: set<string>, f: map<string, real>, side: Side)
    requires Lists(xs, names, f)
    ensures |xs| == |names| && Count(xs, side) == |Having(names, f, side)|
    decreases |xs|
  {
    if xs == [] {
      assert Having(names, f, side) == {};
    } else {
      var pre, last := xs[..|xs| - 1], xs[|xs| - 1];
      var x :| x in names && x in f && last == f[x] && Lists(pre, names - {x}, f);
      ListsCount(pre, names - {x}, f, side);
      assert xs == pre + [last];
      CountSplits(pre, [last], side);
      HavingOneMore(names, f, side, x);
    }
  }

  lemma HavingOneMore(names: set<string>, f: map<string, real>, side: Side, x: string)
    requires x in names && x in f
    ensures |Having(names, f, side)| == |Having(names - {x}, f, side)| + if side.Has(f[x]) then 1 else 0
  {
    var fewer := Having(names - {x}, f, side);
    assert Having(names, f, side) == if side.Has(f[x]) then fewer + {x} else fewer;
  }

  lemma {:induction false} SameLists(xs: seq<real>, ys: seq<real>, names: set<string>, f: map<string, real>)
    requires Lists(xs, names, f) && Lists(ys, names, f)
    ensures Sort(xs) == Sort(ys)
  {
    ListsCount(xs, names, f, AtMost(0.0));
    ListsCount(ys, names, f, AtMost(0.0));
    forall v
      ensures Count(xs, AtMost(v)) == Count(ys, AtMost(v))
    {
      ListsCount(xs, names, f, AtMost(v));
      ListsCount(ys, names, f, AtMost(v));
    }
    SortByCounts(xs, ys);
  }

  /** The median does not depend on the order the operators were visited in. */
  lemma MedianUnique(names: set<string>, f: map<string, real>, m: real, m': real)
    requires IsMedian(names, f, m) && IsMedian(names, f, m')
    ensures m == m'
  {
    var xs :| Lists(xs, names, f) && IsMiddle(xs, m);
    var ys :| Lists(ys, names, f) && IsMiddle(ys, m');
    SameLists(xs, ys, names, f);
    MiddleUnique(xs, ys, m, m');
  }

  predicate AtLeastHalf(part: int, whole: int) {
    part + part >= whole
  }

  /** At least half of the names are on each side of their median. */
  lemma HalfEachSide(names: set<string>, f: map<string, real>, m: real)
    requires IsMedian(names, f, m)
    ensures AtLeastHalf(|Having(names, f, AtMost(m))|, |names|)
    ensures AtLeastHalf(|Having(names, f, AtLeast(m))|, |names|)
  {
    var xs :| Lists(xs, names, f) && IsMiddle(xs, m);
    ListsCount(xs, names, f, AtMost(m));
    ListsCount(xs, names, f, AtLeast(m));
    MiddleSplits(xs, m);
  }

  lemma {:induction false} ListsAmong(xs: seq<real>, names: set<string>, f: map<string, real>,
        i: nat) returns (x: string)
    requires Lists(xs, names, f) && i < |xs|
    ensures x in names && x in f && f[x] == xs[i]
    decreases |xs|
  {
    x :| x in names && x in f && xs[|xs| - 1] == f[x] && Lists(xs[..|xs| - 1], names - {x}, f);
    if i < |xs| - 1 {
      x := ListsAmong(xs[..|xs| - 1], names - {x}, f, i);
    }
  }

  /** The median is no less than some value and no more than another. */
  lemma MedianBetween(names: set<string>, f: map<string, real>, m: real) returns (low: string, high: string)
    requires IsMedian(names, f, m) && names != {}
    ensures low in names && low in f && high in names && high in f && f[low] <= m <= f[high]
  {
    var xs :| Lists(xs, names, f) && IsMiddle(xs, m);
    var a, b := MiddleBounds(xs, m);
    var i :| 0 <= i < |xs| && xs[i] == a;
    var j :| 0 <= j < |xs| && xs[j] == b;
    low := ListsAmong(xs, names, f, i);
    high := ListsAmong(xs, names, f, j);
  }

  // -------------------------------------------------------- the comparison

  /** Whether the candidate fails to stand out, on the measure its trigger read. */
  predicate Blends(c: Candidate, ratio: real, r: Reading, rates: bool, firsts: bool, peers: bool) {
    if ratio <= 0.0 || c.trigger == ByChainAnswers then false
    else if c.trigger == ByOperatorRate then rates && c.operatorRate < ratio * r.operatorRate
    else if c.firstAttempts >= MIN_ATTEMPTS && firsts then 1.0 - c.firstSuccess < ratio * (1.0 - r.firstSuccess)
    else peers && 1.0 - c.successRate < ratio * (1.0 - r.successRate)
  }

  ghost predicate Measured(r: Reading, self: string, views: map<string, View>) {
    && r.peers == |Peers(views, self)|
    && IsMedian(RatePeers(views, self), RatesIn(views), r.operatorRate)
    && IsMedian(Peers(views, self), SuccessIn(views), r.successRate)
    && IsMedian(FirstPeers(views, self), FirstSuccessIn(views), r.firstSuccess)
  }

  ghost predicate Guarded(r: Reading, c: Candidate, self: string, views: map<string, View>, ratio: real) {
    r.poolWide <==> Blends(c, ratio, r, RatePeers(views, self) != {}, FirstPeers(views, self) != {}, Peers(views, self) != {})
  }

  /** Compares a candidate with the medians of its peers. */
  method PeerCompare(c: Candidate, self: string, views: map<string, View>, ratio: real) returns (r: Reading)
    ensures Measured(r, self, views) && Guarded(r, c, self, views, ratio)
    ensures r.peers == |Peers(views, self)|
  {
    var rates, success, firsts := CollectPeers(self, views);
    r := MeasurePeers(self, views, rates, success, firsts);
    var blends := Marks(c, ratio, r, |rates|, |firsts|, |success|);
    r := r.(poolWide := blends);
  }

  method MeasurePeers(self: string, views: map<string, View>, rates: seq<real>, success: seq<real>,
        firsts: seq<real>) returns (r: Reading)
    requires Collected(self, views, {}, rates, success, firsts)
    ensures Measured(r, self, views)
    ensures |rates| == |RatePeers(views, self)| && |success| == |Peers(views, self)| && |firsts| == |FirstPeers(views, self)|
  {
    AllVisited(self, views, rates, success, firsts);
    ListsCount(rates, RatePeers(views, self), RatesIn(views), AtMost(0.0));
    ListsCount(success, Peers(views, self), SuccessIn(views), AtMost(0.0));
    ListsCount(firsts, FirstPeers(views, self), FirstSuccessIn(views), AtMost(0.0));
    var rate := Median(rates);
    var served := Median(success);
    var first := Median(firsts);
    r := Reading(|success|, rate, served, first, false);
  }

  /** The guard's switch. */
  method Marks(c: Candidate, ratio: real, r: Reading, rates: nat, firsts: nat, peers: nat) returns (blends: bool)
    ensures blends <==> Blends(c, ratio, r, rates > 0, firsts > 0, peers > 0)
  {
    blends := false;
    if ratio <= 0.0 || c.trigger == ByChainAnswers {
      return;
    }
    if c.trigger == ByOperatorRate && rates > 0 {
      blends := c.operatorRate < ratio * r.operatorRate;
    } else if c.trigger != ByOperatorRate && c.firstAttempts >= MIN_ATTEMPTS && firsts > 0 {
      blends := 1.0 - c.firstSuccess < ratio * (1.0 - r.firstSuccess);
    } else if c.trigger != ByOperatorRate && peers > 0 {
      blends := 1.0 - c.successRate < ratio * (1.0 - r.successRate);
    }
  }

  /** The three lists hold the peers visited so far. */
  ghost predicate Collected(self: string, views: map<string, View>, todo: set<string>, rates: seq<real>,
        success: seq<real>, firsts: seq<real>) {
    && Lists(rates, RatePeers(views, self) - todo, RatesIn(views))
    && Lists(success, Peers(views, self) - todo, SuccessIn(views))
    && Lists(firsts, FirstPeers(views, self) - todo, FirstSuccessIn(views))
  }

  lemma NoneVisited(self: string, views: map<string, View>)
    ensures Collected(self, views, views.Keys, [], [], [])
  {
    assert RatePeers(views, self) - views.Keys == {};
    assert Peers(views, self) - views.Keys == {};
    assert FirstPeers(views, self) - views.Keys == {};
  }

  lemma {:induction false} AllVisited(self: string, views: map<string, View>, rates: seq<real>, success: seq<real>, firsts: seq<real>)
    requires Collected(self, views, {}, rates, success, firsts)
    ensures Lists(rates, RatePeers(views, self), RatesIn(views))
    ensures Lists(success, Peers(views, self), SuccessIn(views))
    ensures Lists(firsts, FirstPeers(views, self), FirstSuccessIn(views))
  {
    assert RatePeers(views, self) - {} == RatePeers(views, self);
    assert Peers(views, self) - {} == Peers(views, self);
    assert FirstPeers(views, self) - {} == FirstPeers(views, self);
  }

  /** The other operators' figures, in the order the map gives them. */
  method CollectPeers(self: string, views: map<string, View>) returns (rates: seq<real>, success: seq<real>,
        firsts: seq<real>)
    ensures Collected(self, views, {}, rates, success, firsts)
  {
    rates, success, firsts := [], [], [];
    var todo := views.Keys;
    NoneVisited(self, views);
    while todo != {}
      invariant todo <= views.Keys
      invariant Collected(self, views, todo, rates, success, firsts)
      decreases |todo|
    {
      var name :| name in todo;
      rates, success, firsts := CollectPeer(self, views, todo, name, rates, success, firsts);
      todo := todo - {name};
    }
  }

  method CollectPeer(self: string, views: map<string, View>, ghost todo: set<string>, name: string,
        rates: seq<real>, success: seq<real>, firsts: seq<real>)
    returns (rates': seq<real>, success': seq<real>, firsts': seq<real>)
    requires name in todo && name in views && Collected(self, views, todo, rates, success, firsts)
    ensures Collected(self, views, todo - {name}, rates', success', firsts')
  {
    var v := views[name];
    var peer := name != self && v.attempts >= MIN_ATTEMPTS;
    success' := Listed(success, Peers(views, self), SuccessIn(views), todo, name, peer, v.success);
    rates' := Listed(rates, RatePeers(views, self), RatesIn(views), todo, name, peer && v.rateOK, v.rate);
    firsts' := Listed(firsts, FirstPeers(views, self), FirstSuccessIn(views), todo, name, peer && v.firsts >= MIN_ATTEMPTS, v.firstSuccess);
  }

  /** Appends a value when its operator belongs. */
  method Listed(xs: seq<real>, ghost names: set<string>, ghost f: map<string, real>, ghost todo: set<string>,
        ghost name: string, belongs: bool, value: real)
    returns (ys: seq<real>)
    requires Lists(xs, names - todo, f) && name in todo
    requires (belongs <==> name in names) && name in f && value == f[name]
    ensures Lists(ys, names - (todo - {name}), f)
  {
    if belongs {
      ListsMore(xs, names - todo, f, name);
      assert names - (todo - {name}) == names - todo + {name};
      ys := xs + [value];
    } else {
      assert names - (todo - {name}) == names - todo;
      ys := xs;
    }
  }

  // ---------------------------------------------------- half the pool is spared

  lemma {:induction false} Least(names: set<string>, h: map<string, real>) returns (u: string)
    requires names != {} && names <= h.Keys
    ensures u in names && forall x :: x in names ==> h[u] <= h[x]
    decreases |names|
  {
    u :| u in names;
    if names != {u} {
      var rest := names - {u};
      var w := Least(rest, h);
      if h[w] < h[u] {
        u := w;
      }
    }
  }

  /** Whoever is within the yardstick of the least one left out was not left out. */
  lemma WithinBlend(pool: set<string>, h: map<string, real>, u: string, yardstick: real, blended: set<string>)
    requires pool <= h.Keys && u in pool - blended && forall x :: x in pool - blended ==> h[u] <= h[x]
    requires yardstick < h[u]
    ensures |Having(pool - {u}, h, AtMost(yardstick))| <= |blended|
  {
    var below := Having(pool - {u}, h, AtMost(yardstick));
    assert below <= blended;
    SubsetSize(below, blended);
  }

  /** Left out, a name is above a yardstick that covers half of the others. */
  ghost predicate StandsOut(pool: set<string>, h: map<string, real>, s: string) {
    s in h && exists yardstick :: yardstick < h[s] && AtLeastHalf(|Having(pool - {s}, h, AtMost(yardstick))|, |pool| - 1)
  }

  /** If everyone left out stands above half of the others, at least half of the pool, rounded down, is not left out. */
  lemma HalfBlend(pool: set<string>, h: map<string, real>, blended: set<string>)
    requires pool <= h.Keys && blended <= pool && forall s :: s in pool - blended ==> StandsOut(pool, h, s)
    ensures AtLeastHalf(|blended|, |pool| - 1)
  {
    var out := pool - blended;
    if out == {} {
      assert pool == blended + out;
    } else {
      var u := Least(out, h);
      assert StandsOut(pool, h, u);
      var yardstick :| yardstick < h[u] && AtLeastHalf(|Having(pool - {u}, h, AtMost(yardstick))|, |pool| - 1);
      WithinBlend(pool, h, u, yardstick, blended);
    }
  }

  lemma Larger(ratio: real, x: real, y: real)
    requires ratio > 1.0 && x > 0.0 && y >= ratio * x
    ensures y > x
  {
    assert (ratio - 1.0) * x == ratio * x - 1.0 * x;
    assert (ratio - 1.0) * x > 0.0;
  }

  /** The operators whose chronic rate is known and measured. */
  function Rated(views: map<string, View>): set<string> {
    set x | x in views && views[x].attempts >= MIN_ATTEMPTS && views[x].rateOK
  }

  function Marked(pool: set<string>, readings: map<string, Reading>): set<string> {
    set x | x in pool && x in readings && readings[x].poolWide
  }

  /** The reading of an operator raised by its chronic rate. */
  ghost predicate ReadOnRate(views: map<string, View>, c: Candidate, r: Reading, s: string, ratio: real) {
    && s in views && c.trigger == ByOperatorRate && c.operatorRate == views[s].rate
    && Measured(r, s, views) && Guarded(r, c, s, views, ratio)
  }

  /** Read on the chronic rate with a ratio above 1, the guard spares at least half of the measured operators. */
  lemma RateGuardSparesHalf(views: map<string, View>, own: map<string, Candidate>, readings: map<string, Reading>,
        ratio: real)
    requires ratio > 1.0 && |Rated(views)| >= 2
    requires forall x :: x in Rated(views) ==> views[x].rate > 0.0
    requires forall x :: x in Rated(views) ==> x in own && x in readings && ReadOnRate(views, own[x], readings[x], x, ratio)
    ensures |Marked(Rated(views), readings)| >= |Rated(views)| / 2
  {
    var pool, h := Rated(views), RatesIn(views);
    forall s | s in pool - Marked(pool, readings)
      ensures StandsOut(pool, h, s)
    {
      RateStandsOut(views, own[s], readings[s], s, ratio);
    }
    HalfBlend(pool, h, Marked(pool, readings));
  }

  lemma Others(pool: set<string>, s: string)
    requires s in pool && |pool| >= 2
    ensures |pool - {s}| == |pool| - 1 && pool - {s} != {}
  {
  }

  lemma RateStandsOut(views: map<string, View>, c: Candidate, r: Reading, s: string, ratio: real)
    requires s in Rated(views) && |Rated(views)| >= 2 && ratio > 1.0
    requires forall x :: x in Rated(views) ==> views[x].rate > 0.0
    requires ReadOnRate(views, c, r, s, ratio) && !r.poolWide
    ensures StandsOut(Rated(views), RatesIn(views), s)
  {
    var rest := Rated(views) - {s};
    assert RatePeers(views, s) == rest;
    Others(Rated(views), s);
    HalfEachSide(rest, RatesIn(views), r.operatorRate);
    var low, _ := MedianBetween(rest, RatesIn(views), r.operatorRate);
    assert r.operatorRate >= views[low].rate > 0.0;
    Larger(ratio, r.operatorRate, views[s].rate);
  }

  // The same read on first attempts.

  /** The operators with enough first attempts to be read on them. */
  function Sampled(views: map<string, View>): set<string> {
    set x | x in views && views[x].attempts >= MIN_ATTEMPTS && views[x].firsts >= MIN_ATTEMPTS
  }

  function FailureIn(views: map<string, View>): map<string, real> {
    map x | x in views :: 1.0 - views[x].firstSuccess
  }

  /** The reading of an operator raised by collapse picks, on its first attempts. */
  ghost predicate ReadOnFirsts(views: map<string, View>, c: Candidate, r: Reading, s: string, ratio: real) {
    && s in views && c.trigger == ByCollapse && c.firstAttempts == views[s].firsts && c.firstSuccess == views[s].firstSuccess
    && Measured(r, s, views) && Guarded(r, c, s, views, ratio)
  }

  /** Read on first attempts with a ratio above 1, the guard spares at least half of the sampled operators. */
  lemma FirstGuardSparesHalf(views: map<string, View>, own: map<string, Candidate>, readings: map<string, Reading>,
        ratio: real)
    requires ratio > 1.0 && |Sampled(views)| >= 2
    requires forall x :: x in Sampled(views) ==> views[x].firstSuccess < 1.0
    requires forall x :: x in Sampled(views) ==> x in own && x in readings && ReadOnFirsts(views, own[x], readings[x], x, ratio)
    ensures |Marked(Sampled(views), readings)| >= |Sampled(views)| / 2
  {
    var pool, h := Sampled(views), FailureIn(views);
    forall s | s in pool - Marked(pool, readings)
      ensures StandsOut(pool, h, s)
    {
      FirstStandsOut(views, own[s], readings[s], s, ratio);
    }
    HalfBlend(pool, h, Marked(pool, readings));
  }

  lemma FirstStandsOut(views: map<string, View>, c: Candidate, r: Reading, s: string, ratio: real)
    requires s in Sampled(views) && |Sampled(views)| >= 2 && ratio > 1.0
    requires forall x :: x in Sampled(views) ==> views[x].firstSuccess < 1.0
    requires ReadOnFirsts(views, c, r, s, ratio) && !r.poolWide
    ensures StandsOut(Sampled(views), FailureIn(views), s)
  {
    var rest := Sampled(views) - {s};
    assert FirstPeers(views, s) == rest;
    Others(Sampled(views), s);
    HalfEachSide(rest, FirstSuccessIn(views), r.firstSuccess);
    assert Having(rest, FailureIn(views), AtMost(1.0 - r.firstSuccess)) == Having(rest, FirstSuccessIn(views), AtLeast(r.firstSuccess));
    var _, high := MedianBetween(rest, FirstSuccessIn(views), r.firstSuccess);
    assert r.firstSuccess <= views[high].firstSuccess < 1.0;
    Larger(ratio, 1.0 - r.firstSuccess, 1.0 - views[s].firstSuccess);
  }

  // And on all attempts, where nobody has enough first ones.

  function Busy(views: map<string, View>): set<string> {
    set x | x in views && views[x].attempts >= MIN_ATTEMPTS
  }

  function AnyFailureIn(views: map<string, View>): map<string, real> {
    map x | x in views :: 1.0 - views[x].success
  }

  /** The reading of an operator raised by collapse picks, on all its attempts. */
  ghost predicate ReadOnAll(views: map<string, View>, c: Candidate, r: Reading, s: string, ratio: real) {
    && s in views && c.trigger == ByCollapse && c.firstAttempts == views[s].firsts && c.successRate == views[s].success
    && Measured(r, s, views) && Guarded(r, c, s, views, ratio)
  }

  /** Read on all attempts with a ratio above 1, the guard spares at least half of the busy operators. */
  lemma AllGuardSparesHalf(views: map<string, View>, own: map<string, Candidate>, readings: map<string, Reading>,
        ratio: real)
    requires ratio > 1.0 && |Busy(views)| >= 2
    requires forall x :: x in Busy(views) ==> views[x].success < 1.0 && views[x].firsts < MIN_ATTEMPTS
    requires forall x :: x in Busy(views) ==> x in own && x in readings && ReadOnAll(views, own[x], readings[x], x, ratio)
    ensures |Marked(Busy(views), readings)| >= |Busy(views)| / 2
  {
    var pool, h := Busy(views), AnyFailureIn(views);
    forall s | s in pool - Marked(pool, readings)
      ensures StandsOut(pool, h, s)
    {
      AllStandsOut(views, own[s], readings[s], s, ratio);
    }
    HalfBlend(pool, h, Marked(pool, readings));
  }

  lemma AllStandsOut(views: map<string, View>, c: Candidate, r: Reading, s: string, ratio: real)
    requires s in Busy(views) && |Busy(views)| >= 2 && ratio > 1.0
    requires forall x :: x in Busy(views) ==> views[x].success < 1.0 && views[x].firsts < MIN_ATTEMPTS
    requires ReadOnAll(views, c, r, s, ratio) && !r.poolWide
    ensures StandsOut(Busy(views), AnyFailureIn(views), s)
  {
    var rest := Busy(views) - {s};
    assert Peers(views, s) == rest;
    Others(Busy(views), s);
    HalfEachSide(rest, SuccessIn(views), r.successRate);
    assert Having(rest, AnyFailureIn(views), AtMost(1.0 - r.successRate)) == Having(rest, SuccessIn(views), AtLeast(r.successRate));
    var _, high := MedianBetween(rest, SuccessIn(views), r.successRate);
    assert r.successRate <= views[high].success < 1.0;
    Larger(ratio, 1.0 - r.successRate, 1.0 - views[s].success);
  }

  // ------------------------------------------------ and an outlier is not spared

  lemma TimesMore(ratio: real, x: real, y: real)
    requires ratio > 0.0 && x <= y
    ensures ratio * x <= ratio * y
  {
    var d := y - x;
    assert ratio * d >= 0.0;
    assert ratio * (x + d) == ratio * x + ratio * d;
  }

  lemma NotUnder(own: real, ratio: real, median: real, peer: real)
    requires ratio > 0.0 && median <= peer && own >= ratio * peer
    ensures own >= ratio * median
  {
    TimesMore(ratio, median, peer);
  }

  /** Who is at the bar over every other measured operator is never marked. */
  lemma RateOutlierStands(views: map<string, View>, c: Candidate, r: Reading, s: string, ratio: real)
    requires ratio > 0.0 && ReadOnRate(views, c, r, s, ratio)
    requires forall x :: x in RatePeers(views, s) ==> views[s].rate >= ratio * views[x].rate
    ensures !r.poolWide
  {
    if RatePeers(views, s) != {} {
      var _, high := MedianBetween(RatePeers(views, s), RatesIn(views), r.operatorRate);
      NotUnder(views[s].rate, ratio, r.operatorRate, views[high].rate);
    }
  }

  /** The same on first attempts. */
  lemma FirstOutlierStands(views: map<string, View>, c: Candidate, r: Reading, s: string, ratio: real)
    requires ratio > 0.0 && ReadOnFirsts(views, c, r, s, ratio) && views[s].firsts >= MIN_ATTEMPTS && FirstPeers(views, s) != {}
    requires forall x :: x in FirstPeers(views, s) ==> 1.0 - views[s].firstSuccess >= ratio * (1.0 - views[x].firstSuccess)
    ensures !r.poolWide
  {
    var low, _ := MedianBetween(FirstPeers(views, s), FirstSuccessIn(views), r.firstSuccess);
    NotUnder(1.0 - views[s].firstSuccess, ratio, 1.0 - r.firstSuccess, 1.0 - views[low].firstSuccess);
  }

  /** One operator's failures are at least the ratio times another's. */
  predicate FailsMore(views: map<string, View>, s: string, x: string, ratio: real)
    requires s in views && x in views
  {
    1.0 - views[s].success >= ratio * (1.0 - views[x].success)
  }

  lemma MedianUnder(views: map<string, View>, s: string, success: real, ratio: real)
    requires ratio > 0.0 && s in views && Peers(views, s) != {} && IsMedian(Peers(views, s), SuccessIn(views), success)
    requires forall x :: x in Peers(views, s) ==> FailsMore(views, s, x, ratio)
    ensures 1.0 - views[s].success >= ratio * (1.0 - success)
  {
    var low, _ := MedianBetween(Peers(views, s), SuccessIn(views), success);
    assert FailsMore(views, s, low, ratio);
    NotUnder(1.0 - views[s].success, ratio, 1.0 - success, 1.0 - views[low].success);
  }

  /** And on all attempts, where the operator or its peers have too few first ones. */
  lemma AllOutlierStands(views: map<string, View>, c: Candidate, r: Reading, s: string, ratio: real)
    requires ratio > 0.0 && ReadOnAll(views, c, r, s, ratio) && Peers(views, s) != {}
    requires views[s].firsts < MIN_ATTEMPTS || FirstPeers(views, s) == {}
    requires forall x :: x in Peers(views, s) ==> FailsMore(views, s, x, ratio)
    ensures !r.poolWide
  {
    MedianUnder(views, s, r.successRate, ratio);
    AllSpared(views, c, r, s, ratio);
  }

  lemma AllSpared(views: map<string, View>, c: Candidate, r: Reading, s: string, ratio: real)
    requires ratio > 0.0 && ReadOnAll(views, c, r, s, ratio) && (views[s].firsts < MIN_ATTEMPTS || FirstPeers(views, s) == {})
    requires 1.0 - views[s].success >= ratio * (1.0 - r.successRate)
    ensures !r.poolWide
  {
  }

  /** Turned off, without peers, or for chain answers, the guard marks nobody. */
  lemma GuardSilent(views: map<string, View>, c: Candidate, r: Reading, s: string, ratio: real)
    requires Guarded(r, c, s, views, ratio) && (ratio <= 0.0 || c.trigger == ByChainAnswers || Peers(views, s) == {})
    ensures !r.poolWide
  {
    assert RatePeers(views, s) <= Peers(views, s) && FirstPeers(views, s) <= Peers(views, s);
  }
}
