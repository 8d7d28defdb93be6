/**
 The auto-drain limits over every run of one instance: the engine evaluates and decides
 while people set and release drains of their own and time passes.
 */
module AutoDrainLimits {
  import opened Prelude
  import opened DrainKeys
  import opened AutoDrainDecisions

  /** A Set that returned no error. */
  datatype Made = Made(key: Key, at: int)

  /**
   The engine's memory, the drain store, the services with a pool and the clock; then what
   happened: the drains made, and when each key's early release was last noticed.
   */
  datatype World = World(memory: Memory, drains: Drains, pooled: set<string>, clock: int, history: seq<Made>, noticed: map<Key, int>)

  datatype Step =
    | Tick(now: int)
    | Reconcile(now: int)
    | Decide(k: Key, ev: Evidence, act: bool, maxDrain: int, note: string, write: Write)
    | SeePool(service: string)
    | Install(e: Entry)
    | Remove(key: Key)

  /** Time does not go back, a candidate comes from a pool, and only the engine writes its prefix. */
  predicate Enabled(w: World, step: Step) {
    match step
    case Tick(now) => w.clock <= now
    case Reconcile(now) => w.clock <= now
    case Decide(k, _, _, _, _, _) => k.service in w.pooled
    case Install(e) => !IsAuto(e)
    case _ => true
  }

  ghost function DoReconcile(w: World, now: int): World {
    var released := Noticed(w.memory.live, w.drains, now);
    w.(memory := Reconciled(w.memory, w.drains, now), clock := now, noticed := w.noticed + map k | k in released :: now)
  }

  ghost predicate WillDrain(w: World, step: Step) {
    step.Decide? && Verdict(w.memory, w.drains, w.pooled, step.k, w.clock, step.ev, step.act) == Drained
  }

  ghost function DoDecide(w: World, step: Step): World
    requires step.Decide?
  {
    if !WillDrain(w, step) then w
    else
      var e := NewEntry(step.k, w.clock, step.maxDrain, step.note);
      World(Remembered(w.memory, step.k, w.clock, e.until, step.write), DrainsAfter(w.drains, e, step.write), w.pooled, w.clock,
            if step.write == Done then w.history + [Made(step.k, w.clock)] else w.history, w.noticed)
  }

  ghost function Do(w: World, step: Step): World {
    match step
    case Tick(now) => w.(clock := now)
    case Reconcile(now) => DoReconcile(w, now)
    case Decide(_, _, _, _, _, _) => DoDecide(w, step)
    case SeePool(service) => w.(pooled := w.pooled + {service})
    case Install(e) => w.(drains := w.drains[e.key := e])
    case Remove(key) => w.(drains := w.drains - {key})
  }

  /** Every step of the run can happen when its turn comes. */
  ghost predicate Possible(w: World, steps: seq<Step>)
    decreases |steps|, 0
  {
    steps == [] || (Possible(w, steps[..|steps| - 1]) && Enabled(After(w, steps[..|steps| - 1]), steps[|steps| - 1]))
  }

  ghost function After(w: World, steps: seq<Step>): World
    decreases |steps|, 1
  {
    if steps == [] then w else Do(After(w, steps[..|steps| - 1]), steps[|steps| - 1])
  }

  /** What a decision to drain stands on. */
  lemma WillDrainMeans(w: World, step: Step)
    requires WillDrain(w, step) && Keyed(w.drains)
    ensures !AnyCovers(w.drains, step.k, w.clock)
    ensures Gate(step.ev).None? && step.act
    ensures Limit(w.memory, w.drains, w.pooled, step.k, w.clock).None?
  {
    FindsIffCovered(w.drains, step.k, w.clock);
  }

  /**
   A reading aid: the verdicts that come before a drain, on one page. A drain is set exactly when
   no live drain covers the key; enough clients asked, and they fail, or get the operator's errors,
   or the operator fails badly whatever they see; the trouble is its own and someone is vouched
   for; and no suppression, cap, gap or rate stands against it.
   */
  lemma DrainsExactlyWhen(w: World, step: Step)
    requires Keyed(w.drains) && step.Decide?
    ensures WillDrain(w, step) <==>
            var ev, k, m, now := step.ev, step.k, w.memory, w.clock;
            && step.act && (forall key :: IsLive(w.drains, key, now) ==> !Covers(key, k))
            && ev.clientRequests >= MIN_CLIENT_REQUESTS && !ev.poolWide && ev.vouched
            && (ev.clientFailure >= MIN_CLIENT_FAILURE || ev.answerHarm >= MIN_CLIENT_FAILURE
                || (ev.firstAttempts >= SEVERE_MIN_ATTEMPTS && ev.firstSuccess <= SEVERE_MAX_SUCCESS)
                || (ev.attempts >= SEVERE_MIN_ATTEMPTS && ev.successRate <= MAX_SUCCESS))
            && (k in m.suppressed ==> m.suppressed[k] <= now)
            && |PoolAutos(w.drains, k.service, k.rpc, now)| < MAX_LIVE_POOL && |KnownAutos(w.drains, w.pooled, now)| < MAX_LIVE_FLEET
            && (k.service in m.lastBySvc ==> now - m.lastBySvc[k.service] >= SERVICE_GAP) && |m.recent| < MAX_PER_HOUR
  {
    FindsIffCovered(w.drains, step.k, w.clock);
  }

  // -------------------------------------------------------------- the caps

  /** No two live auto drains in one pool. */
  ghost predicate PoolCapped(drains: Drains, now: int) {
    forall a, b :: a in LiveAutos(drains, now) && b in LiveAutos(drains, now) && a.service == b.service && a.rpc == b.rpc ==> a == b
  }

  /** Live auto drains on services the engine has no pool for. */
  function UnknownAutos(w: World): set<Key> {
    LiveAutos(w.drains, w.clock) - KnownAutos(w.drains, w.pooled, w.clock)
  }

  /** The fleet holds at most five more than were found on services without a pool. */
  ghost predicate FleetInv(w: World, unknown: nat) {
    Keyed(w.drains) && |UnknownAutos(w)| <= unknown && |LiveAutos(w.drains, w.clock)| <= MAX_LIVE_FLEET + unknown
  }

  ghost predicate CapInv(w: World, unknown: nat) {
    PoolCapped(w.drains, w.clock) && FleetInv(w, unknown)
  }

  /** A step that adds no live auto drain and forgets no pool keeps the fleet's cap. */
  lemma FewerKeepsFleet(w: World, w': World, unknown: nat)
    requires FleetInv(w, unknown) && Keyed(w'.drains) && w.pooled <= w'.pooled
    requires LiveAutos(w'.drains, w'.clock) <= LiveAutos(w.drains, w.clock)
    ensures FleetInv(w', unknown)
  {
    SubsetSize(LiveAutos(w'.drains, w'.clock), LiveAutos(w.drains, w.clock));
    assert UnknownAutos(w') <= UnknownAutos(w);
    SubsetSize(UnknownAutos(w'), UnknownAutos(w));
  }

  lemma InstallAutos(drains: Drains, e: Entry, now: int)
    ensures LiveAutos(drains[e.key := e], now) <= LiveAutos(drains, now) + {e.key}
  {
  }

  lemma InstallPoolCapped(drains: Drains, e: Entry, now: int)
    requires PoolCapped(drains, now) && PoolAutos(drains, e.key.service, e.key.rpc, now) == {}
    ensures PoolCapped(drains[e.key := e], now)
  {
    InstallAutos(drains, e, now);
    var autos := LiveAutos(drains[e.key := e], now);
    forall a, b | a in autos && b in autos && a.service == b.service && a.rpc == b.rpc
      ensures a == b
    {
      assert a in LiveAutos(drains, now) && a.service == e.key.service && a.rpc == e.key.rpc ==>
             a in PoolAutos(drains, e.key.service, e.key.rpc, now);
      assert b in LiveAutos(drains, now) && b.service == e.key.service && b.rpc == e.key.rpc ==>
             b in PoolAutos(drains, e.key.service, e.key.rpc, now);
    }
  }

  lemma InstallCounts(w: World, w': World, e: Entry)
    requires w'.pooled == w.pooled && w'.clock == w.clock && e.key.service in w.pooled && w'.drains == w.drains[e.key := e]
    ensures |UnknownAutos(w')| <= |UnknownAutos(w)|
    ensures |LiveAutos(w'.drains, w'.clock)| <= |KnownAutos(w.drains, w.pooled, w.clock)| + |UnknownAutos(w)| + 1
  {
    var before, after, known := LiveAutos(w.drains, w.clock), LiveAutos(w'.drains, w'.clock), KnownAutos(w.drains, w.pooled, w.clock);
    InstallAutos(w.drains, e, w.clock);
    assert UnknownAutos(w') <= UnknownAutos(w);
    SubsetSize(UnknownAutos(w'), UnknownAutos(w));
    assert before == known + UnknownAutos(w);
    SubsetSize(after, before + {e.key});
  }

  /** No step but a decision adds a live auto drain, or forgets a pool. */
  lemma OthersAddNone(w: World, step: Step)
    requires Enabled(w, step) && Keyed(w.drains) && !step.Decide?
    ensures var w' := Do(w, step);
            Keyed(w'.drains) && w.pooled <= w'.pooled && LiveAutos(w'.drains, w'.clock) <= LiveAutos(w.drains, w.clock)
  {
    assert step.Install? ==> !IsAuto(step.e);
  }

  lemma DecideKeepsFleet(w: World, step: Step, unknown: nat)
    requires FleetInv(w, unknown) && step.Decide? && step.k.service in w.pooled
    ensures FleetInv(DoDecide(w, step), unknown)
  {
    if WillDrain(w, step) && step.write != FailedAbsent {
      WillDrainMeans(w, step);
      InstallCounts(w, DoDecide(w, step), NewEntry(step.k, w.clock, step.maxDrain, step.note));
    }
  }

  lemma StepKeepsFleet(w: World, step: Step, unknown: nat)
    requires FleetInv(w, unknown) && Enabled(w, step)
    ensures FleetInv(Do(w, step), unknown)
  {
    if step.Decide? {
      DecideKeepsFleet(w, step, unknown);
    } else {
      OthersAddNone(w, step);
      FewerKeepsFleet(w, Do(w, step), unknown);
    }
  }

  lemma StepKeepsPools(w: World, step: Step)
    requires Keyed(w.drains) && PoolCapped(w.drains, w.clock) && Enabled(w, step)
    ensures PoolCapped(Do(w, step).drains, Do(w, step).clock)
  {
    if !step.Decide? {
      OthersAddNone(w, step);
    } else if WillDrain(w, step) && step.write != FailedAbsent {
      WillDrainMeans(w, step);
      var e := NewEntry(step.k, w.clock, step.maxDrain, step.note);
      assert |PoolAutos(w.drains, e.key.service, e.key.rpc, w.clock)| < 1;
      InstallPoolCapped(w.drains, e, w.clock);
    }
  }

  /** Over every run the fleet's cap holds, whatever the pools hold. */
  lemma {:induction false} FleetHolds(w: World, steps: seq<Step>, unknown: nat)
    requires FleetInv(w, unknown) && Possible(w, steps)
    ensures FleetInv(After(w, steps), unknown)
    decreases |steps|
  {
    if steps != [] {
      FleetHolds(w, steps[..|steps| - 1], unknown);
      StepKeepsFleet(After(w, steps[..|steps| - 1]), steps[|steps| - 1], unknown);
    }
  }

  /**
   Over every run: at most one live auto drain in a pool, and in the fleet at most five more
   than the live auto drains the instance found on services it had no pool for.
   */
  lemma {:induction false} CapsHold(w: World, steps: seq<Step>, unknown: nat)
    requires CapInv(w, unknown) && Possible(w, steps)
    ensures CapInv(After(w, steps), unknown)
    decreases |steps|
  {
    if steps != [] {
      var w1, step := After(w, steps[..|steps| - 1]), steps[|steps| - 1];
      CapsHold(w, steps[..|steps| - 1], unknown);
      StepKeepsPools(w1, step);
      StepKeepsFleet(w1, step, unknown);
    }
  }

  lemma OneInPool(w: World, service: string, rpc: string, unknown: nat)
    requires CapInv(w, unknown)
    ensures |PoolAutos(w.drains, service, rpc, w.clock)| <= MAX_LIVE_POOL
  {
    var autos := PoolAutos(w.drains, service, rpc, w.clock);
    if autos != {} {
      var a :| a in autos;
      forall b | b in autos
        ensures b == a
      {
        assert a in LiveAutos(w.drains, w.clock) && b in LiveAutos(w.drains, w.clock);
      }
      assert autos == {a};
    }
  }

  /** An instance that finds no auto drain on an unknown service keeps both caps after every step. */
  lemma {:induction false} CapsHoldFromClean(w: World, steps: seq<Step>, service: string, rpc: string)
    requires Keyed(w.drains) && PoolCapped(w.drains, w.clock) && UnknownAutos(w) == {} && |LiveAutos(w.drains, w.clock)| <= MAX_LIVE_FLEET
    requires Possible(w, steps)
    ensures var w' := After(w, steps);
            && |PoolAutos(w'.drains, service, rpc, w'.clock)| <= MAX_LIVE_POOL
            && |LiveAutos(w'.drains, w'.clock)| <= MAX_LIVE_FLEET
  {
    CapsHold(w, steps, 0);
    OneInPool(After(w, steps), service, rpc, 0);
  }

  // ------------------------------------------------------------- the rates

  /** Drains are made in the order of time. */
  ghost predicate InOrder(history: seq<Made>, clock: int) {
    && (forall i :: 0 <= i < |history| ==> history[i].at <= clock)
    && forall i, j :: 0 <= i < j < |history| ==> history[i].at <= history[j].at
  }

  /** The times remembered are the last drains', and those forgotten are an hour old. */
  ghost predicate RecentTracks(recent: seq<int>, history: seq<Made>, clock: int) {
    && |recent| <= |history|
    && (forall j :: 0 <= j < |recent| ==> recent[j] == history[|history| - |recent| + j].at)
    && forall i :: 0 <= i < |history| - |recent| ==> history[i].at <= clock - HOUR
  }

  /** A fourth drain is at least an hour after the first. */
  ghost predicate HourRule(history: seq<Made>) {
    forall i, j :: 0 <= i && i + MAX_PER_HOUR <= j < |history| ==> history[j].at - history[i].at >= HOUR
  }

  ghost predicate LastTracks(last: map<string, int>, history: seq<Made>) {
    forall i :: 0 <= i < |history| ==> history[i].key.service in last && history[i].at <= last[history[i].key.service]
  }

  ghost predicate GapRule(history: seq<Made>) {
    forall i, j :: 0 <= i < j < |history| && history[i].key.service == history[j].key.service ==> history[j].at - history[i].at >= SERVICE_GAP
  }

  ghost predicate RateInv(w: World) {
    && InOrder(w.history, w.clock)
    && RecentTracks(w.memory.recent, w.history, w.clock) && HourRule(w.history)
    && LastTracks(w.memory.lastBySvc, w.history) && GapRule(w.history)
  }

  lemma {:induction false} SinceNothing(recent: seq<int>, cut: int)
    requires forall j :: 0 <= j < |recent| ==> recent[j] <= cut
    ensures Since(recent, cut) == []
    decreases |recent|
  {
    if recent != [] {
      SinceNothing(recent[..|recent| - 1], cut);
    }
  }

  /** Of times in order, what is kept is the end of the list. */
  lemma {:induction false} SinceIsTail(recent: seq<int>, cut: int) returns (c: nat)
    requires forall i, j :: 0 <= i < j < |recent| ==> recent[i] <= recent[j]
    ensures c <= |recent| && Since(recent, cut) == recent[c..] && forall j :: 0 <= j < c ==> recent[j] <= cut
    decreases |recent|
  {
    c := |recent|;
    if recent != [] {
      var pre := recent[..|recent| - 1];
      var last := recent[|recent| - 1];
      assert forall j :: 0 <= j < |pre| ==> pre[j] == recent[j] <= last;
      if last > cut {
        c := SinceIsTail(pre, cut);
        assert recent[c..] == pre[c..] + [last];
      } else {
        SinceNothing(pre, cut);
        assert recent[|recent|..] == [];
      }
    }
  }

  lemma ReconcileKeepsRecent(recent: seq<int>, history: seq<Made>, clock: int, now: int)
    requires InOrder(history, clock) && RecentTracks(recent, history, clock) && clock <= now
    ensures RecentTracks(Since(recent, now - HOUR), history, now)
  {
    var c := SinceIsTail(recent, now - HOUR);
    var kept, gone := Since(recent, now - HOUR), |history| - |recent|;
    forall i | 0 <= i < |history| - |kept|
      ensures history[i].at <= now - HOUR
    {
      assert i >= gone ==> recent[i - gone] == history[i].at;
    }
  }

  lemma MadeKeepsHour(recent: seq<int>, history: seq<Made>, k: Key, now: int)
    requires InOrder(history, now) && RecentTracks(recent, history, now) && HourRule(history) && |recent| < MAX_PER_HOUR
    ensures var h := history + [Made(k, now)]; InOrder(h, now) && RecentTracks(recent + [now], h, now) && HourRule(h)
  {
    var h := history + [Made(k, now)];
    forall i, j | 0 <= i && i + MAX_PER_HOUR <= j < |h|
      ensures h[j].at - h[i].at >= HOUR
    {
      assert j == |history| ==> history[i].at <= now - HOUR;
    }
  }

  lemma MadeKeepsGap(last: map<string, int>, history: seq<Made>, k: Key, now: int)
    requires InOrder(history, now) && LastTracks(last, history) && GapRule(history)
    requires k.service in last ==> now - last[k.service] >= SERVICE_GAP
    ensures var h := history + [Made(k, now)]; LastTracks(last[k.service := now], h) && GapRule(h)
  {
  }

  lemma DecideKeepsRates(w: World, step: Step)
    requires RateInv(w) && Keyed(w.drains) && step.Decide?
    ensures RateInv(DoDecide(w, step))
  {
    if WillDrain(w, step) && step.write == Done {
      WillDrainMeans(w, step);
      MadeKeepsHour(w.memory.recent, w.history, step.k, w.clock);
      MadeKeepsGap(w.memory.lastBySvc, w.history, step.k, w.clock);
    }
  }

  lemma ReconcileKeepsRates(w: World, now: int)
    requires RateInv(w) && w.clock <= now
    ensures RateInv(DoReconcile(w, now))
  {
    ReconcileKeepsRecent(w.memory.recent, w.history, w.clock, now);
  }

  lemma StepKeepsRates(w: World, step: Step)
    requires RateInv(w) && Keyed(w.drains) && Enabled(w, step)
    ensures RateInv(Do(w, step))
  {
    if step.Reconcile? {
      ReconcileKeepsRates(w, step.now);
    } else if step.Decide? {
      DecideKeepsRates(w, step);
    }
  }

  // -------------------------------------------------------- the suppression

  /** A key noticed as released early is suppressed until six hours have passed. */
  ghost predicate SuppressInv(w: World) {
    forall k :: k in w.noticed ==>
      || w.clock >= w.noticed[k] + SUPPRESS_FOR
      || (k in w.memory.suppressed && w.memory.suppressed[k] >= w.noticed[k] + SUPPRESS_FOR)
  }

  lemma StepKeepsSuppressed(w: World, step: Step)
    requires SuppressInv(w) && Enabled(w, step)
    ensures SuppressInv(Do(w, step))
  {
  }

  // --------------------------------------------------------- over every run

  /** An instance that has just started remembers nothing. */
  predicate Fresh(w: World) {
    w.memory == Memory(map[], map[], map[], []) && w.history == [] && w.noticed == map[]
  }

  lemma StepKeepsKeyed(w: World, step: Step)
    requires Keyed(w.drains)
    ensures Keyed(Do(w, step).drains)
  {
  }

  lemma {:induction false} RunKeeps(w: World, steps: seq<Step>)
    requires Fresh(w) && Keyed(w.drains) && Possible(w, steps)
    ensures var w' := After(w, steps); Keyed(w'.drains) && RateInv(w') && SuppressInv(w')
    decreases |steps|
  {
    if steps != [] {
      var pre, last := steps[..|steps| - 1], steps[|steps| - 1];
      RunKeeps(w, pre);
      StepKeepsKeyed(After(w, pre), last);
      StepKeepsRates(After(w, pre), last);
      StepKeepsSuppressed(After(w, pre), last);
    }
  }

  /** Over every run, at most three drains are made in any hour and those of a service are half an hour apart. */
  lemma {:induction false} RatesHold(w: World, steps: seq<Step>)
    requires Fresh(w) && Keyed(w.drains) && Possible(w, steps)
    ensures var made := After(w, steps).history;
            && (forall i, j :: 0 <= i && i + 3 <= j < |made| ==> made[j].at - made[i].at >= HOUR)
            && (forall i, j :: 0 <= i < j < |made| && made[i].key.service == made[j].key.service ==> made[j].at - made[i].at >= SERVICE_GAP)
  {
    RunKeeps(w, steps);
  }

  /**
   Over every run, a drain is set only where no live drain covers the key, and on no key whose
   early release was noticed within the last six hours.
   */
  lemma {:induction false} SetsAreClear(w: World, steps: seq<Step>, step: Step)
    requires Fresh(w) && Keyed(w.drains) && Possible(w, steps) && WillDrain(After(w, steps), step)
    ensures var w' := After(w, steps);
            && (forall key :: IsLive(w'.drains, key, w'.clock) ==> !Covers(key, step.k))
            && (step.k in w'.noticed ==> w'.clock >= w'.noticed[step.k] + SUPPRESS_FOR)
  {
    RunKeeps(w, steps);
    WillDrainMeans(After(w, steps), step);
  }
}
