/**
 What the breaker's counters mean over a whole run: every break is justified by
 the outcomes that really happened, hit counts are episode counts, and expiries
 only move forward. Runs are arbitrary sequences of operations with a clock that
 does not go back.
 */
module BreakerRuns {
  import opened Prelude
  import opened BreakerModel

  datatype Op =
    | Success(h: Host, now: int)
    | Mark(h: Host, reason: string, now: int)
    | Clear(service: string)
    | Merge(service: string, entries: map<string, Raw>, now: int)

  function Apply(cfg: Config, s: State, op: Op): State {
    match op
    case Success(h, now) => DoSuccess(cfg, s, h, now)
    case Mark(h, reason, now) => DoMark(cfg, s, h, reason, now).0
    case Clear(service) => DoClear(s, service)
    case Merge(service, entries, now) => DoMerge(cfg, s, service, entries, now)
  }

  function Run(cfg: Config, ops: seq<Op>): State {
    if ops == [] then EMPTY else Apply(cfg, Run(cfg, ops[..|ops| - 1]), ops[|ops| - 1])
  }

  predicate Ordered(ops: seq<Op>) {
    forall i, j :: 0 <= i < j < |ops| && !ops[i].Clear? && !ops[j].Clear? ==> ops[i].now <= ops[j].now
  }

  /** One outcome the gate counted for a host, and whether it broke the host. */
  datatype Outcome = Outcome(at: int, failed: bool, broke: bool)

  /** What one operation adds to the log of h. */
  function Logged(cfg: Config, s: State, log: seq<Outcome>, op: Op, h: Host): seq<Outcome> {
    match op
    case Success(h', now) => if h' == h && h.domain != "" then log + [Outcome(now, false, false)] else log
    case Mark(h', reason, now) =>
      if h' == h && !(h in s.broken && now < s.broken[h].expiry) then log + [Outcome(now, true, DoMark(cfg, s, h, reason, now).1)] else log
    case Clear(service) => if service == h.service then [] else log
    case Merge(_, _, _) => log
  }

  /** The outcomes counted for h since the service was last cleared. */
  function Log(cfg: Config, ops: seq<Op>, h: Host): seq<Outcome> {
    if ops == [] then []
    else
      var pre := ops[..|ops| - 1];
      Logged(cfg, Run(cfg, pre), Log(cfg, pre, h), ops[|ops| - 1], h)
  }

  // ----------------------------------------------- the window, from the log

  function Failures(log: seq<Outcome>): nat {
    if log == [] then 0 else Failures(log[..|log| - 1]) + (if log[|log| - 1].failed then 1 else 0)
  }

  /** The first outcome of the window that holds the log's last one. */
  function Opened(cfg: Config, log: seq<Outcome>): (j: nat)
    requires log != []
    ensures j < |log|
  {
    var n := |log|;
    if n == 1 || log[n - 2].broke then n - 1
    else
      var pre := log[..n - 1];
      if log[n - 1].at - OpenedAt(cfg, pre, Opened(cfg, pre)) > cfg.failureWindow then n - 1 else Opened(cfg, pre)
  }

  /** When a window opened: at its first outcome, or at the break before it if that is recent. */
  function OpenedAt(cfg: Config, log: seq<Outcome>, j: nat): int
    requires j < |log|
  {
    if j > 0 && log[j - 1].broke && log[j].at - log[j - 1].at <= cfg.failureWindow then log[j - 1].at else log[j].at
  }

  function Breaks(log: seq<Outcome>): seq<int> {
    if log == [] then []
    else
      var pre := Breaks(log[..|log| - 1]);
      if log[|log| - 1].broke then pre + [log[|log| - 1].at] else pre
  }

  /** How many breaks end the sequence with every gap within memory. */
  function Chain(memory: int, breaks: seq<int>): nat {
    var n := |breaks|;
    if n == 0 then 0
    else if n > 1 && breaks[n - 1] - breaks[n - 2] <= memory then Chain(memory, breaks[..n - 1]) + 1
    else 1
  }

  /** Some earlier break lies within memory of now. */
  predicate BrokeWithin(cfg: Config, log: seq<Outcome>, now: int) {
    exists i :: 0 <= i < |log| && log[i].broke && now - log[i].at <= cfg.memory
  }

  function Threshold(cfg: Config, log: seq<Outcome>, now: int): real {
    if BrokeWithin(cfg, log, now) then cfg.threshold + cfg.margin else cfg.threshold
  }

  predicate Timed(log: seq<Outcome>) {
    forall i, j :: 0 <= i < j < |log| ==> log[i].at <= log[j].at
  }

  // -------------------------------------------- counters refine the log

  /** The window kept for a host is the one its log describes. */
  ghost predicate Refines(cfg: Config, w: Window, log: seq<Outcome>)
    requires log != []
  {
    var n := |log|;
    && w.lastEpisode == LastBreak(log)
    && w.lastHits == Chain(cfg.memory, Breaks(log))
    && if log[n - 1].broke then w.start == log[n - 1].at && w.failures == 0 && w.successes == 0
       else
         var j := Opened(cfg, log);
         && w.start == OpenedAt(cfg, log, j)
         && w.failures == Failures(log[j..])
         && w.failures + w.successes == n - j
  }

  function LastBreak(log: seq<Outcome>): Option<int> {
    var b := Breaks(log);
    if b == [] then None else Some(b[|b| - 1])
  }

  ghost predicate RefinesLog(cfg: Config, w: Option<Window>, log: seq<Outcome>) {
    if log == [] then w.None? else w.Some? && Refines(cfg, w.value, log)
  }

  ghost predicate StatsInv(cfg: Config, s: State, h: Host, log: seq<Outcome>) {
    RefinesLog(cfg, Lookup(s.stats, h), log)
  }

  lemma {:induction false} LogGrows(log: seq<Outcome>, o: Outcome)
    ensures Breaks(log + [o]) == if o.broke then Breaks(log) + [o.at] else Breaks(log)
    ensures Failures(log + [o]) == Failures(log) + (if o.failed then 1 else 0)
  {
    assert (log + [o])[..|log|] == log;
  }

  /** Where the window of a longer log opens. */
  lemma {:induction false} WindowGrows(cfg: Config, log: seq<Outcome>, o: Outcome)
    requires log != []
    ensures var j := Opened(cfg, log);
            Opened(cfg, log + [o]) ==
            if log[|log| - 1].broke || o.at - OpenedAt(cfg, log, j) > cfg.failureWindow then |log| else j
    ensures forall j :: 0 <= j < |log| ==> OpenedAt(cfg, log + [o], j) == OpenedAt(cfg, log, j)
    ensures forall j :: 0 <= j < |log| ==> Failures((log + [o])[j..]) == Failures(log[j..]) + (if o.failed then 1 else 0)
  {
    assert (log + [o])[..|log|] == log;
    forall j | 0 <= j < |log|
      ensures Failures((log + [o])[j..]) == Failures(log[j..]) + (if o.failed then 1 else 0)
    {
      assert (log + [o])[j..] == log[j..] + [o];
      LogGrows(log[j..], o);
    }
  }

  lemma NewWindow(cfg: Config, log: seq<Outcome>, o: Outcome)
    ensures Failures((log + [o])[|log|..]) == if o.failed then 1 else 0
  {
    assert (log + [o])[|log|..] == [] + [o];
    LogGrows([], o);
  }

  /** A window that has not broken, one outcome later: the roll is the log's own new window. */
  lemma RollRefines(cfg: Config, before: Option<Window>, log: seq<Outcome>, o: Outcome)
    requires RefinesLog(cfg, before, log)
    requires !o.broke
    ensures var w := Rolled(cfg, before, o.at);
            var counted := if o.failed then w.(failures := w.failures + 1) else w.(successes := w.successes + 1);
            Refines(cfg, counted, log + [o])
  {
    LogGrows(log, o);
    NewWindow(cfg, log, o);
    if log == [] {
      assert Breaks([]) == [];
    } else {
      WindowGrows(cfg, log, o);
    }
  }

  lemma {:induction false} BreaksIn(log: seq<Outcome>)
    ensures forall i :: 0 <= i < |log| && log[i].broke ==> log[i].at in Breaks(log)
    ensures forall t :: t in Breaks(log) ==> exists i :: 0 <= i < |log| && log[i].broke && log[i].at == t
    ensures Timed(log) && Breaks(log) != [] ==> forall t :: t in Breaks(log) ==> t <= Breaks(log)[|Breaks(log)| - 1]
  {
    if log != [] {
      BreaksIn(log[..|log| - 1]);
    }
  }

  /** The kept episode time answers whether any break is recent. */
  lemma RecentIsBrokeWithin(cfg: Config, w: Window, log: seq<Outcome>, now: int)
    requires Timed(log) && w.lastEpisode == LastBreak(log)
    ensures RecentlyBroken(cfg, w, now) <==> BrokeWithin(cfg, log, now)
  {
    BreaksIn(log);
    var b := Breaks(log);
    if b != [] {
      assert b[|b| - 1] in b;
    }
  }

  /** The gate's verdict read off the log: enough failures in the window, at a high enough rate. */
  predicate Justified(cfg: Config, log: seq<Outcome>)
    requires log != []
  {
    var n, j := |log|, Opened(cfg, log);
    Meets(cfg, Failures(log[j..]), n - j, Threshold(cfg, log[..n - 1], log[n - 1].at))
  }

  lemma RateAtLeast(part: real, whole: real, threshold: real)
    requires whole > 0.0
    ensures part / whole >= threshold <==> part >= threshold * whole
  {
    assert part / whole * whole == part;
    if part / whole >= threshold {
      assert (part / whole - threshold) * whole >= 0.0;
    } else {
      assert (threshold - part / whole) * whole > 0.0;
    }
  }

  /** Both halves of the gate, without the division: enough failures, and the threshold's share of the outcomes or more. */
  lemma MeetsExactly(cfg: Config, failures: nat, total: nat, threshold: real)
    requires total > 0
    ensures Meets(cfg, failures, total, threshold) <==>
            failures >= cfg.minFailures && failures as real >= threshold * total as real
  {
    RateAtLeast(failures as real, total as real, threshold);
  }

  /** Whether the last outcome broke does not move the window it is judged in. */
  lemma VerdictOutsideWindow(cfg: Config, log: seq<Outcome>, o: Outcome)
    ensures Justified(cfg, log + [o]) <==> Justified(cfg, log + [o.(broke := false)])
  {
    var a, b := log + [o], log + [o.(broke := false)];
    assert a[..|log|] == log && b[..|log|] == log;
    assert Opened(cfg, a) == Opened(cfg, b) && Failures(a[Opened(cfg, a)..]) == Failures(b[Opened(cfg, b)..]) by {
      NewWindow(cfg, log, o);
      NewWindow(cfg, log, o.(broke := false));
      if log != [] {
        WindowGrows(cfg, log, o);
        WindowGrows(cfg, log, o.(broke := false));
      }
    }
  }

  /** What the gate counts is what the log's window holds. */
  lemma {:induction false} GateCounts(cfg: Config, before: Option<Window>, log: seq<Outcome>, now: int)
    requires RefinesLog(cfg, before, log)
    ensures var w, log' := Rolled(cfg, before, now), log + [Outcome(now, true, false)];
            var j := Opened(cfg, log');
            w.failures + 1 == Failures(log'[j..]) && w.failures + 1 + w.successes == |log'| - j
  {
    RollRefines(cfg, before, log, Outcome(now, true, false));
  }

  lemma GateRecent(cfg: Config, before: Option<Window>, log: seq<Outcome>, now: int)
    requires RefinesLog(cfg, before, log) && Timed(log)
    ensures RecentlyBroken(cfg, Rolled(cfg, before, now), now) <==> BrokeWithin(cfg, log, now)
  {
    assert Breaks([]) == [];
    RecentIsBrokeWithin(cfg, Rolled(cfg, before, now), log, now);
  }

  /** The gate opens exactly when the log justifies it. */
  lemma GateJustified(cfg: Config, before: Option<Window>, log: seq<Outcome>, now: int)
    requires RefinesLog(cfg, before, log)
    requires Timed(log)
    ensures Gate(cfg, before, now).1.Some? <==> Justified(cfg, log + [Outcome(now, true, false)])
  {
    GateCounts(cfg, before, log, now);
    GateRecent(cfg, before, log, now);
    assert (log + [Outcome(now, true, false)])[..|log|] == log;
  }

  /** A break starts the window again and adds itself to the chain. */
  lemma BreakRefines(cfg: Config, before: Option<Window>, log: seq<Outcome>, now: int)
    requires RefinesLog(cfg, before, log)
    requires Gate(cfg, before, now).1.Some?
    ensures var (w, hits) := Gate(cfg, before, now);
            var log' := log + [Outcome(now, true, true)];
            Refines(cfg, w, log') && hits.value == Chain(cfg.memory, Breaks(log'))
  {
    LogGrows(log, Outcome(now, true, true));
    var b := Breaks(log);
    assert (b + [now])[..|b|] == b;
    assert Breaks([]) == [];
  }

  /** One counted failure: the verdict is the log's, and the state after still refines the log. */
  lemma GateRefines(cfg: Config, before: Option<Window>, log: seq<Outcome>, now: int)
    requires RefinesLog(cfg, before, log)
    requires Timed(log)
    ensures var (w, hits) := Gate(cfg, before, now);
            var log' := log + [Outcome(now, true, hits.Some?)];
            && Refines(cfg, w, log')
            && (hits.Some? <==> Justified(cfg, log'))
            && (hits.Some? ==> hits.value == Chain(cfg.memory, Breaks(log')))
  {
    var o := Outcome(now, true, true);
    GateJustified(cfg, before, log, now);
    VerdictOutsideWindow(cfg, log, o);
    if Gate(cfg, before, now).1.Some? {
      BreakRefines(cfg, before, log, now);
    } else {
      RollRefines(cfg, before, log, o.(broke := false));
    }
  }

  // ---------------------------------------------------------- over any run

  lemma {:induction false} LogBounded(cfg: Config, ops: seq<Op>, h: Host, t: int)
    requires forall i :: 0 <= i < |ops| && !ops[i].Clear? ==> ops[i].now <= t
    ensures forall i :: 0 <= i < |Log(cfg, ops, h)| ==> Log(cfg, ops, h)[i].at <= t
  {
    if ops != [] {
      LogBounded(cfg, ops[..|ops| - 1], h, t);
    }
  }

  /** The window h is left with by an operation that counts an outcome for it. */
  function CountedWindow(cfg: Config, before: Option<Window>, o: Outcome): Window {
    if o.failed then Gate(cfg, before, o.at).0
    else
      var w := Rolled(cfg, before, o.at);
      w.(successes := w.successes + 1)
  }

  lemma CountedRefines(cfg: Config, before: Option<Window>, log: seq<Outcome>, o: Outcome)
    requires RefinesLog(cfg, before, log) && Timed(log)
    requires o.broke == (o.failed && Gate(cfg, before, o.at).1.Some?)
    ensures RefinesLog(cfg, Some(CountedWindow(cfg, before, o)), log + [o])
  {
    if o.failed {
      GateRefines(cfg, before, log, o.at);
    } else {
      RollRefines(cfg, before, log, o);
    }
  }

  /** An operation counts at most one outcome for a host, and counts it as the log says. */
  lemma OpCounts(cfg: Config, s: State, op: Op, h: Host, log: seq<Outcome>)
    ensures var before, after, log' := Lookup(s.stats, h), Lookup(Apply(cfg, s, op).stats, h), Logged(cfg, s, log, op, h);
            || (log' == log && after == before)
            || (log' == [] && after == None)
            || (exists o: Outcome {:trigger CountedWindow(cfg, before, o)} :: log' == log + [o] && after == Some(CountedWindow(cfg, before, o))
                            && o.broke == (o.failed && Gate(cfg, before, o.at).1.Some?))
  {
    var before := Lookup(s.stats, h);
    match op
    case Success(h', now) =>
      var _ := CountedWindow(cfg, before, Outcome(now, false, false));
    case Mark(h', reason, now) =>
      var _ := CountedWindow(cfg, before, Outcome(now, true, Gate(cfg, before, now).1.Some?));
    case _ =>
  }

  lemma OpRefines(cfg: Config, s: State, op: Op, h: Host, log: seq<Outcome>)
    requires StatsInv(cfg, s, h, log) && Timed(log)
    ensures StatsInv(cfg, Apply(cfg, s, op), h, Logged(cfg, s, log, op, h))
  {
    var before, after, log' := Lookup(s.stats, h), Lookup(Apply(cfg, s, op).stats, h), Logged(cfg, s, log, op, h);
    OpCounts(cfg, s, op, h, log);
    if log' != [] && !(log' == log && after == before) {
      var o: Outcome :| log' == log + [o] && after == Some(CountedWindow(cfg, before, o))
                        && o.broke == (o.failed && Gate(cfg, before, o.at).1.Some?);
      CountedRefines(cfg, before, log, o);
    }
  }

  /** The counters of every host refine its log after every run. */
  lemma {:induction false} CountersRefineLog(cfg: Config, ops: seq<Op>, h: Host)
    requires Ordered(ops)
    ensures StatsInv(cfg, Run(cfg, ops), h, Log(cfg, ops, h)) && Timed(Log(cfg, ops, h))
  {
    if ops != [] {
      var pre, op := ops[..|ops| - 1], ops[|ops| - 1];
      CountersRefineLog(cfg, pre, h);
      OpRefines(cfg, Run(cfg, pre), op, h, Log(cfg, pre, h));
      if !op.Clear? {
        LogBounded(cfg, pre, h, op.now);
      }
    }
  }

  /**
   Every break is justified by history, and every justified break happens: a
   mark breaks its host exactly when no break is in effect and the outcomes
   really seen in the current window hold at least minFailures failures at a
   rate meeting the threshold - raised by the margin exactly when an earlier
   break lies within the escalation memory.
   */
  lemma {:induction false} EveryBreakJustified(cfg: Config, ops: seq<Op>, h: Host, reason: string, now: int)
    requires Ordered(ops)
    ensures var s := Run(cfg, ops);
            var log := Log(cfg, ops + [Mark(h, reason, now)], h);
            if h in s.broken && now < s.broken[h].expiry then DoMark(cfg, s, h, reason, now) == (s, false)
            else log != [] && (DoMark(cfg, s, h, reason, now).1 <==> Justified(cfg, log))
  {
    assert (ops + [Mark(h, reason, now)])[..|ops|] == ops;
    CountersRefineLog(cfg, ops, h);
    if !InEffect(Run(cfg, ops), h, now) {
      GateRefines(cfg, Lookup(Run(cfg, ops).stats, h), Log(cfg, ops, h), now);
    }
  }

  lemma {:induction false} WindowBegins(cfg: Config, log: seq<Outcome>)
    requires log != [] && Timed(log)
    ensures var n, j := |log|, Opened(cfg, log);
            && OpenedAt(cfg, log, j) <= log[j].at
            && log[n - 1].at - OpenedAt(cfg, log, j) <= Max(cfg.failureWindow, 0)
  {
    var n, j := |log|, Opened(cfg, log);
    if j < n - 1 {
      var pre := log[..n - 1];
      WindowBegins(cfg, pre);
      assert OpenedAt(cfg, log, j) == OpenedAt(cfg, pre, j);
    }
  }

  lemma {:induction false} WindowUnbroken(cfg: Config, log: seq<Outcome>)
    requires log != []
    ensures forall i :: Opened(cfg, log) <= i < |log| - 1 ==> !log[i].broke
  {
    var n := |log|;
    if Opened(cfg, log) < n - 1 {
      var pre := log[..n - 1];
      WindowUnbroken(cfg, pre);
      assert forall i :: 0 <= i < n - 1 ==> log[i] == pre[i];
    }
  }

  /** Every outcome of the window lies within failureWindow of the last one, and none but the last may have broken. */
  lemma {:induction false} WindowSpan(cfg: Config, log: seq<Outcome>)
    requires log != [] && Timed(log)
    ensures var n, j := |log|, Opened(cfg, log);
            && OpenedAt(cfg, log, j) <= log[j].at
            && log[n - 1].at - OpenedAt(cfg, log, j) <= Max(cfg.failureWindow, 0)
            && (forall i :: j <= i < n ==> log[n - 1].at - log[i].at <= Max(cfg.failureWindow, 0))
            && (forall i :: j <= i < n - 1 ==> !log[i].broke)
  {
    WindowBegins(cfg, log);
    WindowUnbroken(cfg, log);
  }

  /** The window reaches back as far as it may: to the start, to a break, or to where an earlier outcome is too old. */
  lemma {:induction false} WindowReach(cfg: Config, log: seq<Outcome>)
    requires log != []
    ensures var j := Opened(cfg, log);
            j == 0 || log[j - 1].broke || exists i :: 0 <= i < j && log[j].at - log[i].at > cfg.failureWindow
  {
    var n, j := |log|, Opened(cfg, log);
    if n > 1 && !log[n - 2].broke {
      var pre := log[..n - 1];
      if j < n - 1 {
        WindowReach(cfg, pre);
      } else {
        var j' := Opened(cfg, pre);
        var i := if OpenedAt(cfg, pre, j') == pre[j'].at then j' else j' - 1;
        assert log[j].at - log[i].at > cfg.failureWindow;
      }
    }
  }

  // ------------------------------------------------------------ escalation

  lemma {:induction false} PowGrows(m: nat, n: nat)
    requires m <= n
    ensures Pow2(m) <= Pow2(n)
  {
    if m < n { PowGrows(m, n - 1); }
  }

  /** The capped shift is the doubling it stands for, at every hit count, and never shrinks. */
  lemma EscalationIsDoubling(hits: nat)
    ensures EscalateTTL(hits) == Min(MIN_TTL * Pow2(hits), MAX_TTL)
    ensures MIN_TTL <= EscalateTTL(hits) <= EscalateTTL(hits + 1) <= MAX_TTL
  {
    assert Pow2(0) == 1 && Pow2(1) == 2 && Pow2(2) == 4 && Pow2(3) == 8 && Pow2(4) == 16 && Pow2(5) == 32;
    PowGrows(0, hits);
    if hits >= 5 {
      PowGrows(5, hits);
    }
  }

  /** Chain is the longest run of breaks ending the sequence with every gap within memory. */
  lemma {:induction false} ChainMeaning(memory: int, breaks: seq<int>)
    requires breaks != []
    ensures var n, c := |breaks|, Chain(memory, breaks);
            && 1 <= c <= n
            && (forall i, j :: n - c <= i && j == i + 1 < n ==> breaks[j] - breaks[i] <= memory)
            && (c < n ==> breaks[n - c] - breaks[n - c - 1] > memory)
  {
    var n := |breaks|;
    if n > 1 && breaks[n - 1] - breaks[n - 2] <= memory {
      var pre := breaks[..n - 1];
      ChainMeaning(memory, pre);
      forall i, j | n - Chain(memory, breaks) <= i && j == i + 1 < n
        ensures breaks[j] - breaks[i] <= memory
      {
        assert j < n - 1 ==> breaks[j] == pre[j] && breaks[i] == pre[i];
      }
    }
  }

  /** What a break stores, in the gate's own terms. */
  lemma MarkStores(cfg: Config, s: State, h: Host, reason: string, now: int)
    requires DoMark(cfg, s, h, reason, now).1
    ensures var hits := Gate(cfg, Lookup(s.stats, h), now).1;
            && hits.Some?
            && DoMark(cfg, s, h, reason, now).0.broken == s.broken[h := Broken(now + EscalateTTL(hits.value - 1), hits.value, reason)]
  {
  }

  /** The hit count a break is given is the length of its chain. */
  lemma {:induction false} HitsAreChain(cfg: Config, before: Option<Window>, log: seq<Outcome>, now: int, hits: Option<nat>)
    requires RefinesLog(cfg, before, log) && hits == Gate(cfg, before, now).1 && hits.Some?
    ensures 1 <= hits.value == Chain(cfg.memory, Breaks(log + [Outcome(now, true, true)]))
  {
    BreakRefines(cfg, before, log, now);
    LogGrows(log, Outcome(now, true, true));
  }

  lemma {:induction false} BreakStored(cfg: Config, s: State, h: Host, reason: string, now: int, log: seq<Outcome>)
    requires StatsInv(cfg, s, h, log) && DoMark(cfg, s, h, reason, now).1
    ensures var chain := Chain(cfg.memory, Breaks(log + [Outcome(now, true, true)]));
            chain >= 1 && DoMark(cfg, s, h, reason, now).0.broken ==
                          s.broken[h := Broken(now + EscalateTTL(chain - 1), chain, reason)]
  {
    MarkStores(cfg, s, h, reason, now);
    HitsAreChain(cfg, Lookup(s.stats, h), log, now, Gate(cfg, Lookup(s.stats, h), now).1);
  }

  /** A break's hit count is the length of its chain of episodes, and its TTL doubles along the chain up to the cap. */
  lemma {:induction false} EscalationCountsEpisodes(cfg: Config, ops: seq<Op>, h: Host, reason: string, now: int)
    requires Ordered(ops) && DoMark(cfg, Run(cfg, ops), h, reason, now).1
    ensures var all := ops + [Mark(h, reason, now)];
            var chain := Chain(cfg.memory, Breaks(Log(cfg, all, h)));
            && chain >= 1 && h in Run(cfg, all).broken
            && Run(cfg, all).broken[h] == Broken(now + Min(MIN_TTL * Pow2(chain - 1), MAX_TTL), chain, reason)
  {
    var all := ops + [Mark(h, reason, now)];
    assert all[..|ops|] == ops;
    CountersRefineLog(cfg, ops, h);
    BreakStored(cfg, Run(cfg, ops), h, reason, now, Log(cfg, ops, h));
    EscalationIsDoubling(Chain(cfg.memory, Breaks(Log(cfg, all, h))) - 1);
  }

  /** An operation that neither clears nor merges the service. */
  predicate Leaves(op: Op, service: string) {
    !(op.Clear? && op.service == service) && !(op.Merge? && op.service == service)
  }

  /** A break stays stored, and as it is unless a mark comes when it is over. */
  lemma StoredStep(cfg: Config, s: State, op: Op, h: Host)
    requires h in s.broken && Leaves(op, h.service)
    ensures h in Apply(cfg, s, op).broken && Apply(cfg, s, op).broken[h].expiry >= s.broken[h].expiry
    ensures !(op.Mark? && op.h == h && op.now >= s.broken[h].expiry) ==> Apply(cfg, s, op).broken[h] == s.broken[h]
  {
    if op.Merge? {
      MergeKeeps(cfg, s, op.service, op.entries, op.now, h);
    } else {
      ExpiryStep(cfg, s, op, h);
    }
  }

  /** None of the operations marks the domain at or after a time. */
  predicate Unmarked(ops: seq<Op>, h: Host, expiry: int) {
    forall i :: 0 <= i < |ops| && ops[i].Mark? && ops[i].h == h ==> ops[i].now < expiry
  }

  lemma {:induction false} StoredRun(cfg: Config, ops: seq<Op>, later: seq<Op>, h: Host)
    requires h in Run(cfg, ops).broken && forall i :: 0 <= i < |later| ==> Leaves(later[i], h.service)
    ensures var expiry, s := Run(cfg, ops).broken[h].expiry, Run(cfg, ops + later);
            && h in s.broken && s.broken[h].expiry >= expiry
            && (Unmarked(later, h, expiry) ==> s.broken[h].expiry == expiry)
    decreases |later|
  {
    if later == [] {
      assert ops + later == ops;
    } else {
      var pre, op := later[..|later| - 1], later[|later| - 1];
      StoredRun(cfg, ops, pre, h);
      assert (ops + later)[..|ops + later| - 1] == ops + pre;
      StoredStep(cfg, Run(cfg, ops + pre), op, h);
    }
  }

  lemma {:induction false} ReadsAsStored(cfg: Config, ops: seq<Op>, later: seq<Op>, h: Host, expiry: int, t: int)
    requires h in Run(cfg, ops).broken && Run(cfg, ops).broken[h].expiry == expiry
    requires forall i :: 0 <= i < |later| ==> Leaves(later[i], h.service)
    ensures t <= expiry ==> ReadsBroken(Run(cfg, ops + later), h, t)
    ensures Unmarked(later, h, expiry) && t > expiry ==> !ReadsBroken(Run(cfg, ops + later), h, t)
  {
    StoredRun(cfg, ops, later, h);
  }

  /**
   What a caller reads after a break: until the service is cleared or merged, the domain is broken
   at every time up to the TTL its chain gives, and at none after unless marked again by then.
   */
  lemma {:induction false} BreakLasts(cfg: Config, ops: seq<Op>, h: Host, reason: string, now: int, later: seq<Op>, t: int)
    requires Ordered(ops) && DoMark(cfg, Run(cfg, ops), h, reason, now).1
    requires forall i :: 0 <= i < |later| ==> Leaves(later[i], h.service)
    ensures var all := ops + [Mark(h, reason, now)];
            var expiry := now + Min(MIN_TTL * Pow2(Chain(cfg.memory, Breaks(Log(cfg, all, h))) - 1), MAX_TTL);
            && (t <= expiry ==> ReadsBroken(Run(cfg, all + later), h, t))
            && (Unmarked(later, h, expiry) && t > expiry ==>
                  !ReadsBroken(Run(cfg, all + later), h, t))
  {
    EscalationCountsEpisodes(cfg, ops, h, reason, now);
    var all := ops + [Mark(h, reason, now)];
    ReadsAsStored(cfg, all, later, h, Run(cfg, all).broken[h].expiry, t);
  }

  // ----------------------------------------------------- the shared view

  /** No operation moves a stored expiry back. */
  lemma ExpiryStep(cfg: Config, s: State, op: Op, h: Host)
    requires h in s.broken && h in Apply(cfg, s, op).broken
    ensures Apply(cfg, s, op).broken[h].expiry >= s.broken[h].expiry
  {
    match op
    case Merge(service, entries, now) => MergeLookup(cfg, s, service, entries, now);
    case Mark(h', reason, now) =>
      var hits := Gate(cfg, Lookup(s.stats, h'), now).1;
      if hits.Some? {
        EscalationIsDoubling(hits.value - 1);
      }
    case _ =>
  }

  /** Over any stretch of a run in which a domain stays listed, its expiry never decreases. */
  lemma {:induction false} ExpiriesMoveForward(cfg: Config, ops: seq<Op>, h: Host, from: nat)
    requires from <= |ops| && forall i :: from <= i <= |ops| ==> h in Run(cfg, ops[..i]).broken
    ensures h in Run(cfg, ops).broken && Run(cfg, ops[..from]).broken[h].expiry <= Run(cfg, ops).broken[h].expiry
  {
    assert ops[..|ops|] == ops;
    if from < |ops| {
      var pre := ops[..|ops| - 1];
      assert forall i :: from <= i <= |pre| ==> pre[..i] == ops[..i];
      ExpiriesMoveForward(cfg, pre, h, from);
      ExpiryStep(cfg, Run(cfg, pre), ops[|ops| - 1], h);
    }
  }

  /** Merging the same view again at the same time changes nothing. */
  lemma MergeIdempotent(cfg: Config, s: State, service: string, entries: map<string, Raw>, now: int)
    ensures var once := DoMerge(cfg, s, service, entries, now);
            DoMerge(cfg, once, service, entries, now) == once
  {
    var once := DoMerge(cfg, s, service, entries, now);
    var twice := DoMerge(cfg, once, service, entries, now);
    MergeLookup(cfg, s, service, entries, now);
    MergeLookup(cfg, once, service, entries, now);
    forall h
      ensures Lookup(twice.broken, h) == Lookup(once.broken, h) && Lookup(twice.locally, h) == Lookup(once.locally, h)
    {
      assert Lookup(once.broken, h) == MergedAt(cfg, s, service, entries, now, h);
      assert Lookup(once.locally, h) == if Dropped(cfg, s, service, entries, now, h) then None else Lookup(s.locally, h);
    }
    SameMap(twice.broken, once.broken);
    SameMap(twice.locally, once.locally);
  }

  /** A merge removes a domain it does not list exactly when this replica's own break is absent or at least cacheTTL old. */
  lemma MergeDropsExactly(cfg: Config, s: State, service: string, entries: map<string, Raw>, now: int, h: Host)
    requires h in s.broken && h.service == service && h.domain !in entries
    ensures h !in DoMerge(cfg, s, service, entries, now).broken <==> h !in s.locally || now - s.locally[h] >= cfg.cacheTTL
    ensures h in DoMerge(cfg, s, service, entries, now).broken ==> DoMerge(cfg, s, service, entries, now).broken[h] == s.broken[h]
  {
    MergeLookup(cfg, s, service, entries, now);
    assert Lookup(DoMerge(cfg, s, service, entries, now).broken, h) == MergedAt(cfg, s, service, entries, now, h);
  }

  /** A merge leaves every other service alone and never drops what it lists. */
  lemma MergeKeeps(cfg: Config, s: State, service: string, entries: map<string, Raw>, now: int, h: Host)
    requires h in s.broken && (h.service != service || h.domain in entries)
    ensures h in DoMerge(cfg, s, service, entries, now).broken
    ensures h.service != service ==> DoMerge(cfg, s, service, entries, now).broken[h] == s.broken[h]
  {
    MergeLookup(cfg, s, service, entries, now);
    assert Lookup(DoMerge(cfg, s, service, entries, now).broken, h) == MergedAt(cfg, s, service, entries, now, h);
  }

  /**
   What a merge makes of a listed domain: a break that decodes and is not over is adopted, unless
   the one held lasts as long; anything else leaves what was held.
   */
  lemma MergeAdopts(cfg: Config, s: State, service: string, entries: map<string, Raw>, now: int, d: string)
    requires d in entries
    ensures var h, e, after := Host(service, d), entries[d], DoMerge(cfg, s, service, entries, now).broken;
            if e.Decoded? && now <= e.state.expiry then
              && h in after && now <= after[h].expiry
              && after[h] == if h in s.broken && s.broken[h].expiry >= e.state.expiry then s.broken[h] else e.state
            else
              (h in after <==> h in s.broken) && (h in s.broken ==> after[h] == s.broken[h])
  {
    MergeLookup(cfg, s, service, entries, now);
    var h := Host(service, d);
    assert Lookup(DoMerge(cfg, s, service, entries, now).broken, h) == MergedAt(cfg, s, service, entries, now, h);
  }

  /** An adopted break is read until its time is up, whatever follows short of a clear or another merge. */
  lemma {:induction false} AdoptedLasts(cfg: Config, ops: seq<Op>, service: string, entries: map<string, Raw>, now: int, d: string,
        later: seq<Op>, t: int)
    requires d in entries && entries[d].Decoded? && now <= entries[d].state.expiry
    requires forall i :: 0 <= i < |later| ==> Leaves(later[i], service)
    ensures t <= entries[d].state.expiry ==> ReadsBroken(Run(cfg, ops + [Merge(service, entries, now)] + later), Host(service, d), t)
  {
    var all, h := ops + [Merge(service, entries, now)], Host(service, d);
    assert all[..|all| - 1] == ops;
    MergeAdopts(cfg, Run(cfg, ops), service, entries, now, d);
    ReadsAsStored(cfg, all, later, h, Run(cfg, all).broken[h].expiry, t);
  }

  /** Clearing a service forgets everything about its domains and nothing about any other. */
  lemma ClearForgets(s: State, service: string, h: Host)
    ensures var after := DoClear(s, service);
            if h.service == service then h !in after.broken && h !in after.locally && h !in after.stats
            else && Lookup(after.broken, h) == Lookup(s.broken, h) && Lookup(after.locally, h) == Lookup(s.locally, h)
                 && Lookup(after.stats, h) == Lookup(s.stats, h)
  {
  }

  // -------------------------------------------- a break too fresh to be shared

  /** This replica broke the domain, and not before `since`. */
  predicate OwnSince(s: State, h: Host, since: int) {
    h in s.broken && h in s.locally && s.locally[h] >= since
  }

  /** It cannot come to forget the break: no clear of the service, and no merge of it as late as cacheTTL after. */
  predicate TooFresh(cfg: Config, op: Op, service: string, since: int) {
    !(op.Clear? && op.service == service) && !(op.Merge? && op.service == service && op.now - since >= cfg.cacheTTL)
  }

  lemma FreshStep(cfg: Config, s: State, op: Op, h: Host, since: int)
    requires OwnSince(s, h, since) && TooFresh(cfg, op, h.service, since) && (op.Clear? || op.now >= since)
    ensures OwnSince(Apply(cfg, s, op), h, since) && Apply(cfg, s, op).broken[h].expiry >= s.broken[h].expiry
  {
    if op.Merge? {
      MergeLookup(cfg, s, op.service, op.entries, op.now);
      assert Lookup(Apply(cfg, s, op).broken, h) == MergedAt(cfg, s, op.service, op.entries, op.now, h);
      assert Lookup(Apply(cfg, s, op).locally, h) == Lookup(s.locally, h);
    }
    ExpiryStep(cfg, s, op, h);
  }

  lemma {:induction false} FreshRun(cfg: Config, ops: seq<Op>, later: seq<Op>, h: Host, since: int)
    requires OwnSince(Run(cfg, ops), h, since)
    requires forall i :: 0 <= i < |later| ==> TooFresh(cfg, later[i], h.service, since) && (later[i].Clear? || later[i].now >= since)
    ensures OwnSince(Run(cfg, ops + later), h, since) && Run(cfg, ops + later).broken[h].expiry >= Run(cfg, ops).broken[h].expiry
    decreases |later|
  {
    if later == [] {
      assert ops + later == ops;
    } else {
      var pre, op := later[..|later| - 1], later[|later| - 1];
      FreshRun(cfg, ops, pre, h, since);
      assert (ops + later)[..|ops + later| - 1] == ops + pre;
      FreshStep(cfg, Run(cfg, ops + pre), op, h, since);
    }
  }

  /**
   A break that Redis may not list yet survives every merge within cacheTTL of it, listed or not,
   and is read until its time is up; MergeDropsExactly says that a later merge forgets it.
   */
  lemma {:induction false} FreshBreakSurvives(cfg: Config, ops: seq<Op>, h: Host, reason: string, now: int, later: seq<Op>, t: int)
    requires DoMark(cfg, Run(cfg, ops), h, reason, now).1
    requires forall i :: 0 <= i < |later| ==> TooFresh(cfg, later[i], h.service, now) && (later[i].Clear? || later[i].now >= now)
    ensures t <= now + MIN_TTL ==> ReadsBroken(Run(cfg, ops + [Mark(h, reason, now)] + later), h, t)
  {
    var all := ops + [Mark(h, reason, now)];
    assert all[..|all| - 1] == ops;
    MarkStores(cfg, Run(cfg, ops), h, reason, now);
    EscalationIsDoubling(Max(Gate(cfg, Lookup(Run(cfg, ops).stats, h), now).1.value - 1, 0));
    FreshRun(cfg, all, later, h, now);
  }
}
