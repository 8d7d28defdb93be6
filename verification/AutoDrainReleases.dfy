/**
 What the engine makes of a drain of its own that is gone before its time (autodrain/engine.go,
 reconcile): read off the drain store alone, a person's release keeps the engine off the key for
 six hours, and nothing else does.
 */
module AutoDrainReleases {
  import opened Prelude
  import opened DrainKeys
  import opened DrainOrder
  import opened AutoDrainDecisions
  import opened AutoDrainLimits

  /** The drain listed first of those that cover the key is one of the engine's. */
  ghost predicate CoveredByAuto(drains: Drains, k: Key, now: int) {
    exists e :: IsFirst(drains, k, now, e) && REASON_PREFIX <= e.reason
  }

  lemma CoveredMeans(drains: Drains, k: Key, now: int)
    requires Keyed(drains)
    ensures CoveredByAuto(drains, k, now) <==> Find(drains, k, now).Some? && IsAuto(Find(drains, k, now).value)
    ensures Find(drains, k, now).None? <==> !AnyCovers(drains, k, now)
  {
    FindsIffCovered(drains, k, now);
    if CoveredByAuto(drains, k, now) {
      var e :| IsFirst(drains, k, now, e) && REASON_PREFIX <= e.reason;
      assert IsLive(drains, e.key, now) && Covers(e.key, k);
      FirstUnique(drains, k, now, e, Find(drains, k, now).value);
    }
  }

  /**
   One reconcile, key by key. A drain kept in mind stays there while it is due and the first that
   covers its key is the engine's; gone before its time with nothing in its place, the key is
   suppressed for six hours; due, or taken over by a person, it is forgotten and not suppressed.
   Every other suppression runs out by itself.
   */
  lemma ReconcileExactly(w: World, now: int, k: Key)
    requires Keyed(w.drains)
    ensures var m, m' := w.memory, Do(w, Reconcile(now)).memory;
            var due := k in m.live && now < m.live[k];
            && (k in m'.live <==> due && CoveredByAuto(w.drains, k, now))
            && (k in m'.live ==> m'.live[k] == m.live[k])
            && (due && !AnyCovers(w.drains, k, now) ==> k in m'.suppressed && m'.suppressed[k] == now + 6 * 3600)
            && (!(due && !AnyCovers(w.drains, k, now)) ==>
                  Lookup(m'.suppressed, k) == if k in m.suppressed && now < m.suppressed[k] then Lookup(m.suppressed, k) else None)
  {
    CoveredMeans(w.drains, k, now);
  }

  // ---------------------------------------------------------- over every run

  /** A drain the engine has made is in its mind, with the time it lasts to. */
  lemma MadeIsInMind(w: World, step: Step)
    requires WillDrain(w, step) && step.write == Done
    ensures var live := Do(w, step).memory.live;
            step.k in live && w.clock < live[step.k] <= w.clock + 2 * 3600
  {
  }

  /** A step that gives the engine no reason to forget a drain, or to think anew of it. */
  ghost predicate Uneventful(w: World, step: Step, k: Key) {
    && (step.Reconcile? ==> k in w.memory.live && step.now < w.memory.live[k] && CoveredByAuto(w.drains, k, step.now))
    && (step.Decide? ==> step.k != k)
  }

  lemma MindStep(w: World, step: Step, k: Key)
    requires Keyed(w.drains) && k in w.memory.live && Uneventful(w, step, k)
    ensures Keyed(Do(w, step).drains) && Lookup(Do(w, step).memory.live, k) == Some(w.memory.live[k])
  {
    StepKeepsKeyed(w, step);
    if step.Reconcile? {
      ReconcileExactly(w, step.now, k);
    }
  }

  /** It stays in mind until such a step. */
  lemma {:induction false} StaysInMind(w: World, steps: seq<Step>, k: Key)
    requires Keyed(w.drains) && k in w.memory.live
    requires forall i :: 0 <= i < |steps| ==> Uneventful(After(w, steps[..i]), steps[i], k)
    ensures Keyed(After(w, steps).drains) && Lookup(After(w, steps).memory.live, k) == Some(w.memory.live[k])
    decreases |steps|
  {
    if steps != [] {
      var n := |steps| - 1;
      var pre, last := steps[..n], steps[n];
      assert forall i :: 0 <= i < n ==> pre[..i] == steps[..i] && pre[i] == steps[i];
      StaysInMind(w, pre, k);
      MindStep(After(w, pre), last, k);
    }
  }

  /** Suppressed at least until a time, which is at most six hours off. */
  ghost predicate SuppressedUntil(w: World, k: Key, until: int) {
    w.clock >= until || (until <= w.clock + 6 * 3600 && k in w.memory.suppressed && w.memory.suppressed[k] >= until)
  }

  lemma StaysSuppressed(w: World, step: Step, k: Key, until: int)
    requires SuppressedUntil(w, k, until) && Enabled(w, step) && Keyed(w.drains)
    ensures SuppressedUntil(Do(w, step), k, until)
  {
    if step.Reconcile? {
      ReconcileExactly(w, step.now, k);
    }
  }

  lemma {:induction false} SuppressedOn(w: World, steps: seq<Step>, k: Key, until: int)
    requires SuppressedUntil(w, k, until) && Keyed(w.drains) && Possible(w, steps)
    ensures SuppressedUntil(After(w, steps), k, until) && Keyed(After(w, steps).drains)
    decreases |steps|
  {
    if steps != [] {
      var pre, last := steps[..|steps| - 1], steps[|steps| - 1];
      SuppressedOn(w, pre, k, until);
      StaysSuppressed(After(w, pre), last, k, until);
      StepKeepsKeyed(After(w, pre), last);
    }
  }

  /**
   A drain in mind that a reconcile finds gone before its time, with no live drain in its place,
   keeps the engine off the key for six hours, whatever happens then.
   */
  lemma {:induction false} EarlyReleaseSuppresses(w: World, now: int, k: Key, steps: seq<Step>, step: Step)
    requires Keyed(w.drains) && k in w.memory.live && now < w.memory.live[k] && !AnyCovers(w.drains, k, now)
    requires Possible(Do(w, Reconcile(now)), steps) && WillDrain(After(Do(w, Reconcile(now)), steps), step) && step.k == k
    ensures After(Do(w, Reconcile(now)), steps).clock >= now + 6 * 3600
  {
    ReconcileExactly(w, now, k);
    SuppressedOn(Do(w, Reconcile(now)), steps, k, now + 6 * 3600);
    WillDrainMeans(After(Do(w, Reconcile(now)), steps), step);
  }

  /**
   From the drain to its release: once the engine has drained a key, and until a reconcile finds
   that drain due or another in its place, a person's release is noticed by the next reconcile and
   the key is not drained again for six hours.
   */
  lemma {:induction false} ReleasedDrainStaysAway(w: World, made: Step, steps: seq<Step>, now: int, later: seq<Step>, step: Step)
    requires Keyed(w.drains) && WillDrain(w, made) && made.write == Done && step.Decide? && step.k == made.k
    requires forall i :: 0 <= i < |steps| ==> Uneventful(After(Do(w, made), steps[..i]), steps[i], made.k)
    requires var w1 := After(Do(w, made), steps);
             && now < Do(w, made).memory.live[made.k] && !AnyCovers(w1.drains, made.k, now)
             && Possible(Do(w1, Reconcile(now)), later) && WillDrain(After(Do(w1, Reconcile(now)), later), step)
    ensures After(Do(After(Do(w, made), steps), Reconcile(now)), later).clock >= now + 6 * 3600
  {
    MadeIsInMind(w, made);
    StepKeepsKeyed(w, made);
    StaysInMind(Do(w, made), steps, made.k);
    EarlyReleaseSuppresses(After(Do(w, made), steps), now, made.k, later, step);
  }
}
