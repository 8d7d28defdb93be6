/**
 "This pod only" (drain/redis.go, ErrPropagation): a drain whose write failed
 lasts its full duration on the instance that took it. The promise is kept
 exactly when neither Redis nor a refresh about to retry the write holds a field
 for the key that runs out before the drain does. When one does, a refresh that
 sees it expired retries the drain's write, lands it, and then deletes the field
 with its own clean-up.
 */
module DrainPromise {
  import opened Prelude
  import opened DrainKeys
  import opened DrainCells
  import opened DrainRecords
  import opened DrainProtocol

  predicate Pending(s: State, e: Entry) {
    s.record.Some? && s.record.value.pending && s.record.value.entry == e
  }

  /** Nothing else touches the key: no caller and no HDel is outstanding, and any write is this refresh's retry of e. */
  ghost predicate Alone(s: State, e: Entry) {
    && s.calls == multiset{} && s.dels == 0 && s.cell.releasedAt == None
    && forall id :: id in s.writes ==>
         && s.phase.Retrying? && s.phase.write == id
         && s.writes[id].entry == e && s.record.Some? && s.writes[id].gen == s.record.value.gen
  }

  /** Set(e) has returned ErrPropagation and e is held as pending. */
  ghost predicate Parked(k: Key, s: State, e: Entry) {
    e.key == k && Encodable(e) && s.clock < e.until && Pending(s, e) && Alone(s, e)
    && forall id :: id in s.writes ==> s.writes[id].wire == Begun
  }

  /** Nothing held for the key, or nothing that runs out before e. */
  predicate NoStale(value: Option<Entry>, e: Entry) {
    value.None? || value.value.until >= e.until
  }

  /** The refresh under way, if it may still retry the drain, has not seen a field that runs out first. */
  predicate PhaseClean(p: Phase, e: Entry) {
    match p
    case Got(_, snap) => NoStale(snap, e)
    case Scanned(_, now, _, expired) => expired ==> now >= e.until
    case Retrying(_, now, _, expired, _) => expired ==> now >= e.until
    case _ => true
  }

  predicate Untouched(steps: seq<Step>) {
    forall i :: 0 <= i < |steps| ==> !steps[i].LocalSet? && !steps[i].LocalRelease?
  }

  predicate Began(steps: seq<Step>) {
    RefreshBegins in steps
  }

  /** A refresh began, and a refresh then replaced the local map. */
  predicate Refreshed(steps: seq<Step>) {
    exists i, j :: 0 <= i < j < |steps| && steps[i] == RefreshBegins && steps[j].ReplaceLocal?
  }

  /** In every continuation nobody interferes with, once a later refresh has run the drain is in the local map until its time is up. */
  ghost predicate KeepsPromise(k: Key, s: State, e: Entry) {
    forall steps :: Possible(k, s, steps) && Untouched(steps) && Refreshed(steps) && After(k, s, steps).clock < e.until ==>
                      After(k, s, steps).cell.entry == Some(e)
  }

  // ------------------------------------------------------------ the promise

  ghost predicate Held(s: State, e: Entry) {
    && Alone(s, e) && NoStale(s.redis, e)
    && (s.record.Some? && s.record.value.pending ==> s.record.value.entry == e)
    && (s.clock < e.until ==> Pending(s, e) || s.redis == Some(e))
    && PhaseClean(s.phase, e) && CleansNothing(s, e)
    && (s.phase.Scanned? || s.phase.Retrying? || s.phase.Reconciled? ==> s.phase.now <= s.clock)
    && forall id :: id in s.writes ==> WireHeld(s, s.writes[id].wire, e)
  }

  /** A clean-up to come finds the drain's time up, or the drain still pending. */
  predicate CleansNothing(s: State, e: Entry) {
    && (s.phase.Reconciled? && s.phase.expired ==> s.phase.now >= e.until || Pending(s, e))
    && (s.phase.Cleaning? ==> s.clock >= e.until || Pending(s, e))
  }

  predicate WireHeld(s: State, wire: Wire, e: Entry) {
    && (wire == Landed ==> s.redis == Some(e))
    && (wire == Skipped ==> s.clock >= e.until)
    && wire != Unencodable
  }

  /** A refresh that began after the failed Set will lay e down. */
  ghost predicate Ripe(s: State, e: Entry) {
    match s.phase
    case Got(_, snap) => s.clock < e.until ==> Pending(s, e) || snap == Some(e)
    case Scanned(_, now, next, _) => now < e.until ==> Pending(s, e) || next == Some(e)
    case Retrying(_, now, _, _, write) => write in s.writes && now < e.until
    case Reconciled(_, now, next, _) => now < e.until ==> next == Some(e)
    case _ => true
  }

  lemma HeldFinish(s: State, e: Entry, id: nat, err: WriteError)
    requires Held(s, e) && id in s.writes && Outcome(s.writes[id].wire, err)
    ensures Held(DoFinish(s, id, err), e)
    ensures Ripe(s, e) ==> Ripe(DoFinish(s, id, err), e)
  {
    var v := FinishWrite(s.record, e, s.writes[id].gen, err);
    assert v.live == Some(e) && !v.compensate;
  }

  predicate OnWire(step: Step) {
    step.Send? || step.Land? || step.Finish? || step.Decide? || step.DelLands? || step.DelFails?
  }

  lemma HeldOnWire(k: Key, s: State, e: Entry, step: Step)
    requires Encodable(e) && Held(s, e) && Enabled(k, s, step) && OnWire(step)
    ensures Held(Do(k, s, step), e)
    ensures Ripe(s, e) ==> Ripe(Do(k, s, step), e)
  {
    match step
    case Finish(id, err) => HeldFinish(s, e, id, err);
    case _ =>
  }

  /** The refresh up to its retry. */
  lemma HeldBefore(k: Key, s: State, e: Entry, step: Step)
    requires Held(s, e) && Enabled(k, s, step)
    requires step.Tick? || step.RefreshBegins? || step.RefreshFails? || step.SnapshotTaken? || step.Scan?
    ensures Held(Do(k, s, step), e)
    ensures Ripe(s, e) || step == RefreshBegins ==> Ripe(Do(k, s, step), e)
  {
  }

  /** The retry taken, or found not needed. */
  lemma HeldRetry(k: Key, s: State, e: Entry)
    requires Held(s, e) && Enabled(k, s, TakeRetry)
    ensures Held(Do(k, s, TakeRetry), e)
    ensures Ripe(s, e) ==> Ripe(Do(k, s, TakeRetry), e)
  {
  }

  /** The replacement and the clean-up. */
  lemma HeldAfter(k: Key, s: State, e: Entry, step: Step)
    requires Held(s, e) && Enabled(k, s, step) && (step.ReplaceLocal? || step.CleanLands? || step.CleanFails?)
    ensures Held(Do(k, s, step), e) && Ripe(Do(k, s, step), e)
  {
  }

  lemma HeldStep(k: Key, s: State, e: Entry, step: Step)
    requires Encodable(e) && Held(s, e) && Enabled(k, s, step) && Untouched([step])
    ensures Held(Do(k, s, step), e)
    ensures Ripe(s, e) || step == RefreshBegins ==> Ripe(Do(k, s, step), e)
  {
    assert step == [step][0];
    if OnWire(step) {
      HeldOnWire(k, s, e, step);
    } else if step.TakeRetry? {
      HeldRetry(k, s, e);
    } else if step.ReplaceLocal? || step.CleanLands? || step.CleanFails? {
      HeldAfter(k, s, e, step);
    } else {
      HeldBefore(k, s, e, step);
    }
  }

  lemma ReplaceLays(k: Key, s: State, e: Entry, now: int)
    requires Held(s, e) && Ripe(s, e) && Enabled(k, s, ReplaceLocal(now)) && s.clock < e.until
    ensures Do(k, s, ReplaceLocal(now)).cell.entry == Some(e)
  {
  }

  lemma {:induction false} HeldRun(k: Key, s: State, e: Entry, steps: seq<Step>)
    requires Encodable(e) && Held(s, e) && Possible(k, s, steps) && Untouched(steps)
    ensures Held(After(k, s, steps), e)
    ensures Began(steps) ==> Ripe(After(k, s, steps), e)
    ensures Refreshed(steps) && After(k, s, steps).clock < e.until ==> After(k, s, steps).cell.entry == Some(e)
    decreases |steps|
  {
    if steps != [] {
      var pre, step := steps[..|steps| - 1], steps[|steps| - 1];
      HeldRun(k, s, e, pre);
      var s1 := After(k, s, pre);
      assert step in steps;
      HeldStep(k, s1, e, step);
      EarlierToo(pre, step);
      assert steps == pre + [step];
      if Refreshed(steps) && Do(k, s1, step).clock < e.until {
        LaidDown(k, s1, e, step, Began(pre), Refreshed(pre));
      }
    }
  }

  /** What a run has had, it had before its last step or has in it. */
  lemma EarlierToo(pre: seq<Step>, step: Step)
    ensures Began(pre + [step]) <==> Began(pre) || step == RefreshBegins
    ensures Refreshed(pre + [step]) <==> Refreshed(pre) || (Began(pre) && step.ReplaceLocal?)
  {
    var steps := pre + [step];
    if Refreshed(steps) {
      var i, j :| 0 <= i < j < |steps| && steps[i] == RefreshBegins && steps[j].ReplaceLocal?;
      assert pre[i] == RefreshBegins;
      assert j < |pre| ==> pre[j].ReplaceLocal?;
    }
    if Refreshed(pre) {
      var i, j :| 0 <= i < j < |pre| && pre[i] == RefreshBegins && pre[j].ReplaceLocal?;
      assert steps[i] == RefreshBegins && steps[j].ReplaceLocal?;
    }
    if Began(pre) && step.ReplaceLocal? {
      var i :| 0 <= i < |pre| && pre[i] == RefreshBegins;
      assert steps[i] == RefreshBegins && steps[|pre|].ReplaceLocal?;
    }
  }

  /** The last step lays e down, or leaves it where an earlier refresh did. */
  lemma LaidDown(k: Key, s: State, e: Entry, step: Step, began: bool, refreshed: bool)
    requires Held(s, e) && Enabled(k, s, step) && !step.LocalSet? && !step.LocalRelease?
    requires Do(k, s, step).clock < e.until && (refreshed || (began && step.ReplaceLocal?)) && (refreshed ==> began)
    requires (began ==> Ripe(s, e)) && (refreshed && s.clock < e.until ==> s.cell.entry == Some(e))
    ensures Do(k, s, step).cell.entry == Some(e)
  {
    if step.ReplaceLocal? {
      ReplaceLays(k, s, e, step.now);
    }
  }

  /**
   The promise kept, and how a drain stops being pending: from a parked drain
   with no staler field in Redis, and none seen by a refresh that may still retry
   it, every continuation keeps the drain pending or in Redis until its time is up,
   and every later refresh lays it down locally.
   */
  lemma {:induction false} PromiseKept(k: Key, s: State, e: Entry)
    requires Parked(k, s, e) && Reachable(k, s)
    requires NoStale(s.redis, e) && PhaseClean(s.phase, e)
    ensures KeepsPromise(k, s, e)
    ensures forall steps :: Possible(k, s, steps) && Untouched(steps) && After(k, s, steps).clock < e.until ==>
                              Pending(After(k, s, steps), e) || After(k, s, steps).redis == Some(e)
  {
    ReachableInv(k, s);
    forall steps | Possible(k, s, steps) && Untouched(steps)
      ensures Held(After(k, s, steps), e)
      ensures Refreshed(steps) && After(k, s, steps).clock < e.until ==> After(k, s, steps).cell.entry == Some(e)
    {
      HeldRun(k, s, e, steps);
    }
  }

  // -------------------------------------------------------- its exact limit

  ghost predicate LeadsTo(k: Key, s: State, steps: seq<Step>, s': State) {
    Possible(k, s, steps) && Untouched(steps) && After(k, s, steps) == s'
  }

  lemma Here(k: Key, s: State)
    ensures LeadsTo(k, s, [], s)
  {
  }

  /** A run with one more step. */
  lemma {:induction false} OneMore(k: Key, s: State, steps: seq<Step>, s1: State, step: Step, s2: State)
    requires LeadsTo(k, s, steps, s1) && Enabled(k, s1, step) && s2 == Do(k, s1, step) && !step.LocalSet? && !step.LocalRelease?
    ensures LeadsTo(k, s, steps + [step], s2)
  {
    var more := steps + [step];
    assert more[..|more| - 1] == steps && more[|more| - 1] == step;
    assert Possible(k, s, more);
    assert After(k, s, more) == Do(k, s1, step);
  }

  /** Gluing two runs. */
  lemma {:induction false} Joined(k: Key, s: State, a: seq<Step>, s1: State, b: seq<Step>, s2: State)
    requires LeadsTo(k, s, a, s1) && LeadsTo(k, s1, b, s2)
    ensures LeadsTo(k, s, a + b, s2)
    decreases |b|
  {
    if b == [] {
      assert a + b == a;
    } else {
      var pre := b[..|b| - 1];
      assert forall i :: 0 <= i < |b| ==> b[i] == (a + b)[|a| + i];
      Joined(k, s, a, s1, pre, After(k, s1, pre));
      assert (a + b)[..|a + b| - 1] == a + pre;
    }
  }

  /** A refresh that finds the key neither in Redis nor pending drops it. */
  lemma EmptyRefresh(k: Key, s: State) returns (steps: seq<Step>, s': State)
    requires s.phase == Idle && s.redis == None && s.record == None
    requires s.cell.releasedAt == None && (s.cell.setAt.Some? ==> s.cell.setAt.value <= s.clock)
    ensures LeadsTo(k, s, steps, s') && |steps| > 1 && steps[0] == RefreshBegins && steps[|steps| - 1].ReplaceLocal?
    ensures s'.clock == s.clock && s'.cell.entry == None
  {
    var t := s.clock;
    var s1 := s.(phase := Reading(t));
    var s2 := s.(phase := Got(t, None));
    var s3 := s.(phase := Scanned(t, t, None, false));
    var s4 := s.(phase := Reconciled(t, t, None, false));
    s' := Do(k, s4, ReplaceLocal(t));
    Here(k, s);
    steps := [];
    OneMore(k, s, steps, s, RefreshBegins, s1);
    steps := steps + [RefreshBegins];
    OneMore(k, s, steps, s1, SnapshotTaken, s2);
    steps := steps + [SnapshotTaken];
    OneMore(k, s, steps, s2, Scan, s3);
    steps := steps + [Scan];
    OneMore(k, s, steps, s3, TakeRetry, s4);
    steps := steps + [TakeRetry];
    OneMore(k, s, steps, s4, ReplaceLocal(t), s');
    steps := steps + [ReplaceLocal(t)];
  }

  /** A run with a step before it. */
  lemma StepFirst(k: Key, s: State, step: Step, rest: seq<Step>, s2: State)
    requires Enabled(k, s, step) && !step.LocalSet? && !step.LocalRelease? && LeadsTo(k, Do(k, s, step), rest, s2)
    ensures LeadsTo(k, s, [step] + rest, s2)
  {
    Here(k, s);
    OneMore(k, s, [], s, step, Do(k, s, step));
    assert [] + [step] == [step];
    Joined(k, s, [step], Do(k, s, step), rest, s2);
  }

  lemma RefreshedLater(step: Step, rest: seq<Step>)
    requires Refreshed(rest)
    ensures Refreshed([step] + rest)
  {
    var i: nat, j: nat :| 0 <= i < j < |rest| && rest[i] == RefreshBegins && rest[j].ReplaceLocal?;
    var all := [step] + rest;
    assert all[i + 1] == RefreshBegins && all[j + 1].ReplaceLocal?;
  }

  /** A run that shows the promise broken. */
  ghost predicate Breaks(k: Key, s: State, e: Entry, steps: seq<Step>, s': State) {
    LeadsTo(k, s, steps, s') && Refreshed(steps) && s'.clock < e.until && s'.cell.entry != Some(e)
  }

  lemma BrokenByRun(k: Key, s: State, e: Entry, steps: seq<Step>, s': State)
    requires Breaks(k, s, e, steps, s')
    ensures !KeepsPromise(k, s, e)
  {
  }

  /** What breaks the promise a step later breaks it now. */
  lemma StepBreaks(k: Key, s: State, e: Entry, step: Step)
    requires Enabled(k, s, step) && !step.LocalSet? && !step.LocalRelease? && !KeepsPromise(k, Do(k, s, step), e)
    ensures !KeepsPromise(k, s, e)
  {
    var s1 := Do(k, s, step);
    var rest: seq<Step> :| Possible(k, s1, rest) && Untouched(rest) && Refreshed(rest) && After(k, s1, rest).clock < e.until
                           && After(k, s1, rest).cell.entry != Some(e);
    var s2 := After(k, s1, rest);
    StepFirst(k, s, step, rest, s2);
    RefreshedLater(step, rest);
    BrokenByRun(k, s, e, [step] + rest, s2);
  }

  // A refresh that has seen the field expired retries, lands and deletes.

  predicate Settled(s: State, e: Entry) {
    s.clock < e.until && s.cell.releasedAt == None && (s.cell.setAt.Some? ==> s.cell.setAt.value <= s.clock)
  }

  lemma GoneBreaks(k: Key, s: State, e: Entry)
    requires Settled(s, e) && s.phase.Idle? && s.redis == None && s.record == None
    ensures !KeepsPromise(k, s, e)
  {
    var steps, s1 := EmptyRefresh(k, s);
    assert Refreshed(steps);
  }

  lemma CleaningBreaks(k: Key, s: State, e: Entry)
    requires Settled(s, e) && s.phase.Cleaning? && s.record == None
    ensures !KeepsPromise(k, s, e)
  {
    GoneBreaks(k, Do(k, s, CleanLands), e);
    StepBreaks(k, s, e, CleanLands);
  }

  lemma ReconciledBreaks(k: Key, s: State, e: Entry)
    requires Settled(s, e) && s.phase.Reconciled? && s.phase.expired && s.phase.now <= s.clock && s.record == None
    ensures !KeepsPromise(k, s, e)
  {
    CleaningBreaks(k, Do(k, s, ReplaceLocal(s.clock)), e);
    StepBreaks(k, s, e, ReplaceLocal(s.clock));
  }

  /** The refresh's retry of e is the only write, wherever it is, and the refresh will clean up. */
  ghost predicate Doomed(s: State, e: Entry, wire: Wire) {
    && Settled(s, e) && Encodable(e) && s.phase.Retrying? && s.phase.expired && s.phase.now <= s.clock
    && s.writes.Keys == {s.phase.write} && s.record.Some? && s.record.value.inflight == 1
    && s.writes[s.phase.write].entry == e && s.writes[s.phase.write].gen == s.record.value.gen
    && s.writes[s.phase.write].wire == wire
  }

  lemma LandedBreaks(k: Key, s: State, e: Entry)
    requires Doomed(s, e, Landed)
    ensures !KeepsPromise(k, s, e)
  {
    ReconciledBreaks(k, Do(k, s, Finish(s.phase.write, NoError)), e);
    StepBreaks(k, s, e, Finish(s.phase.write, NoError));
  }

  lemma SentBreaks(k: Key, s: State, e: Entry)
    requires Doomed(s, e, Sent)
    ensures !KeepsPromise(k, s, e)
  {
    LandedBreaks(k, Do(k, s, Land(s.phase.write)), e);
    StepBreaks(k, s, e, Land(s.phase.write));
  }

  lemma BegunBreaks(k: Key, s: State, e: Entry)
    requires Doomed(s, e, Begun)
    ensures !KeepsPromise(k, s, e)
  {
    SentBreaks(k, Do(k, s, Send(s.phase.write)), e);
    StepBreaks(k, s, e, Send(s.phase.write));
  }

  // From a parked drain, phase by phase.

  ghost predicate Waits(k: Key, s: State, e: Entry) {
    Parked(k, s, e) && Reachable(k, s)
  }

  lemma WaitsInv(k: Key, s: State, e: Entry)
    requires Waits(k, s, e)
    ensures Inv(k, s) && Settled(s, e)
    ensures s.phase.Retrying? ==> s.writes.Keys == {s.phase.write} && s.record.value.inflight == 1
    ensures !s.phase.Retrying? ==> s.writes == map[] && s.record.value.inflight == 0
  {
    ReachableInv(k, s);
    if s.phase.Retrying? {
      assert s.writes.Keys == {s.phase.write};
      assert |s.writes| == |s.writes.Keys|;
    } else {
      assert s.writes == map[];
    }
  }

  lemma RetryingExpired(k: Key, s: State, e: Entry)
    requires Waits(k, s, e) && s.phase.Retrying? && s.phase.expired
    ensures !KeepsPromise(k, s, e)
  {
    WaitsInv(k, s, e);
    BegunBreaks(k, s, e);
  }

  /** The pending drain is taken for a retry, and is parked still. */
  lemma TakesIt(k: Key, s: State, e: Entry)
    requires Waits(k, s, e) && s.phase.Scanned?
    ensures var s1 := Do(k, s, TakeRetry);
            Waits(k, s1, e) && s1.phase.Retrying? && s1.phase.expired == s.phase.expired && s1.redis == s.redis
  {
    WaitsInv(k, s, e);
    Reaches(k, s, TakeRetry);
  }

  lemma ScannedExpired(k: Key, s: State, e: Entry)
    requires Waits(k, s, e) && s.phase.Scanned? && s.phase.expired
    ensures !KeepsPromise(k, s, e)
  {
    TakesIt(k, s, e);
    RetryingExpired(k, Do(k, s, TakeRetry), e);
    StepBreaks(k, s, e, TakeRetry);
  }

  lemma GotStale(k: Key, s: State, e: Entry)
    requires Waits(k, s, e) && s.phase.Got? && !NoStale(s.phase.snap, e)
    ensures !KeepsPromise(k, s, e)
  {
    var t := if s.phase.snap.value.until > s.clock then s.phase.snap.value.until else s.clock;
    var s1 := Do(k, s, Tick(t));
    Reaches(k, s, Tick(t));
    Reaches(k, s1, Scan);
    ScannedExpired(k, Do(k, s1, Scan), e);
    StepBreaks(k, s1, e, Scan);
    StepBreaks(k, s, e, Tick(t));
  }

  // A stale field that the refresh under way has not seen, or will not act on, is met by the next one.

  lemma ReadingStale(k: Key, s: State, e: Entry)
    requires Waits(k, s, e) && s.phase.Reading? && !NoStale(s.redis, e)
    ensures !KeepsPromise(k, s, e)
  {
    Reaches(k, s, SnapshotTaken);
    GotStale(k, Do(k, s, SnapshotTaken), e);
    StepBreaks(k, s, e, SnapshotTaken);
  }

  lemma IdleStale(k: Key, s: State, e: Entry)
    requires Waits(k, s, e) && s.phase.Idle? && !NoStale(s.redis, e)
    ensures !KeepsPromise(k, s, e)
  {
    Reaches(k, s, RefreshBegins);
    ReadingStale(k, Do(k, s, RefreshBegins), e);
    StepBreaks(k, s, e, RefreshBegins);
  }

  lemma CleaningStale(k: Key, s: State, e: Entry)
    requires Waits(k, s, e) && s.phase.Cleaning? && !NoStale(s.redis, e)
    ensures !KeepsPromise(k, s, e)
  {
    Reaches(k, s, CleanFails);
    IdleStale(k, Do(k, s, CleanFails), e);
    StepBreaks(k, s, e, CleanFails);
  }

  lemma ReconciledStale(k: Key, s: State, e: Entry)
    requires Waits(k, s, e) && s.phase.Reconciled? && !NoStale(s.redis, e)
    ensures !KeepsPromise(k, s, e)
  {
    WaitsInv(k, s, e);
    var s1 := Do(k, s, ReplaceLocal(s.clock));
    Reaches(k, s, ReplaceLocal(s.clock));
    if s.phase.expired {
      CleaningStale(k, s1, e);
    } else {
      IdleStale(k, s1, e);
    }
    StepBreaks(k, s, e, ReplaceLocal(s.clock));
  }

  /** The retry may fail as the Set did, and the drain is parked again. */
  lemma RetryFails(k: Key, s: State, e: Entry)
    requires Waits(k, s, e) && s.phase.Retrying?
    ensures Enabled(k, s, Send(s.phase.write))
    ensures var s1 := Do(k, s, Send(s.phase.write));
            && Enabled(k, s1, Finish(s.phase.write, Propagation))
            && var s2 := Do(k, s1, Finish(s.phase.write, Propagation));
               Waits(k, s2, e) && s2.phase.Reconciled? && s2.redis == s.redis
  {
    WaitsInv(k, s, e);
    var s1 := Do(k, s, Send(s.phase.write));
    Reaches(k, s, Send(s.phase.write));
    Reaches(k, s1, Finish(s.phase.write, Propagation));
    assert (s1.writes - {s.phase.write}).Keys == {};
  }

  lemma RetryingStale(k: Key, s: State, e: Entry)
    requires Waits(k, s, e) && s.phase.Retrying? && !NoStale(s.redis, e)
    ensures !KeepsPromise(k, s, e)
  {
    WaitsInv(k, s, e);
    RetryFails(k, s, e);
    var s1 := Do(k, s, Send(s.phase.write));
    ReconciledStale(k, Do(k, s1, Finish(s.phase.write, Propagation)), e);
    StepBreaks(k, s1, e, Finish(s.phase.write, Propagation));
    StepBreaks(k, s, e, Send(s.phase.write));
  }

  lemma ScannedStale(k: Key, s: State, e: Entry)
    requires Waits(k, s, e) && s.phase.Scanned? && !NoStale(s.redis, e)
    ensures !KeepsPromise(k, s, e)
  {
    TakesIt(k, s, e);
    RetryingStale(k, Do(k, s, TakeRetry), e);
    StepBreaks(k, s, e, TakeRetry);
  }

  lemma SnapshotStale(k: Key, s: State, e: Entry)
    requires Waits(k, s, e) && s.phase.Got? && !NoStale(s.redis, e)
    ensures !KeepsPromise(k, s, e)
  {
    Reaches(k, s, Scan);
    ScannedStale(k, Do(k, s, Scan), e);
    StepBreaks(k, s, e, Scan);
  }

  /** A field that runs out first breaks the promise in whatever phase a refresh is: the drain is dropped, its time not up. */
  lemma StaleFieldBreaksPromise(k: Key, s: State, e: Entry)
    requires Parked(k, s, e) && Reachable(k, s) && !NoStale(s.redis, e)
    ensures !KeepsPromise(k, s, e)
  {
    match s.phase
    case Idle => IdleStale(k, s, e);
    case Reading(_) => ReadingStale(k, s, e);
    case Got(_, _) => SnapshotStale(k, s, e);
    case Scanned(_, _, _, _) => ScannedStale(k, s, e);
    case Retrying(_, _, _, _, _) => RetryingStale(k, s, e);
    case Reconciled(_, _, _, _) => ReconciledStale(k, s, e);
    case Cleaning => CleaningStale(k, s, e);
  }

  /** So does one that a refresh has seen, and will delete after retrying the drain. */
  lemma SeenFieldBreaksPromise(k: Key, s: State, e: Entry)
    requires Parked(k, s, e) && Reachable(k, s) && !PhaseClean(s.phase, e)
    ensures !KeepsPromise(k, s, e)
  {
    if s.phase.Got? {
      GotStale(k, s, e);
    } else if s.phase.Scanned? {
      ScannedExpired(k, s, e);
    } else {
      RetryingExpired(k, s, e);
    }
  }

  /**
   "This pod only" is kept exactly when Redis holds no field that runs out before the drain, and
   no refresh that may still retry the drain has seen one.
   */
  lemma PromiseKeptExactlyWhen(k: Key, s: State, e: Entry)
    requires Parked(k, s, e) && Reachable(k, s)
    ensures KeepsPromise(k, s, e) <==> NoStale(s.redis, e) && PhaseClean(s.phase, e)
  {
    if !NoStale(s.redis, e) {
      StaleFieldBreaksPromise(k, s, e);
    } else if !PhaseClean(s.phase, e) {
      SeenFieldBreaksPromise(k, s, e);
    } else {
      PromiseKept(k, s, e);
    }
  }

  /** How a drain comes to be parked: its own Set is the last word, alone on the wire, and the write fails. */
  lemma FailedSetParks(k: Key, s: State, id: nat)
    requires Reachable(k, s) && id in s.writes && Outcome(s.writes[id].wire, Propagation)
    requires s.writes[id].decision == s.decisions && s.writes == map[id := s.writes[id]]
    requires s.calls == multiset{} && s.dels == 0 && s.lastLocal.Install? && !s.phase.Retrying?
    requires s.clock < s.lastSet.until && Encodable(s.lastSet)
    ensures Parked(k, Do(k, s, Finish(id, Propagation)), s.lastSet)
  {
    ReachableInv(k, s);
  }

  lemma Reaches(k: Key, s: State, step: Step)
    requires Reachable(k, s) && Enabled(k, s, step)
    ensures Reachable(k, Do(k, s, step))
  {
    var s0, steps :| Init(k, s0) && Possible(k, s0, steps) && After(k, s0, steps) == s;
    var more := steps + [step];
    assert more[..|more| - 1] == steps;
    assert Possible(k, s0, more) && After(k, s0, more) == Do(k, s, step);
  }

  lemma Begins(k: Key, s: State)
    requires Init(k, s)
    ensures Reachable(k, s)
  {
    assert Possible(k, s, []) && After(k, s, []) == s;
  }

  /** A Set on a key nothing is known of, up to its decision. */
  lemma SetDecided(k: Key, s0: State, e: Entry) returns (s: State)
    requires Init(k, s0) && e.key == k && s0.clock < e.until
    ensures Reachable(k, s) && s.redis == s0.redis && s.clock == s0.clock && s.phase.Idle?
    ensures s.calls == multiset{} && s.dels == 0 && s.cell.releasedAt == None
    ensures s.record == Some(BeginSet(None, e)) && s.writes == map[0 := Write(e, s.record.value.gen, s.decisions, Begun)]
  {
    Begins(k, s0);
    var s1 := Do(k, s0, LocalSet(e));
    Reaches(k, s0, LocalSet(e));
    assert s1.calls == multiset{SetCall(e)};
    s := Do(k, s1, Decide(SetCall(e)));
    Reaches(k, s1, Decide(SetCall(e)));
  }

  /** An older field is still in Redis when its write fails. */
  lemma StaleRun(k: Key, s0: State, e: Entry) returns (s: State)
    requires Init(k, s0) && e.key == k && s0.clock < e.until && Encodable(e)
    ensures Reachable(k, s) && s.redis == s0.redis && s.clock == s0.clock && s.phase.Idle?
    ensures Pending(s, e) && s.calls == multiset{} && s.dels == 0 && s.cell.releasedAt == None && s.writes == map[]
  {
    var s2 := SetDecided(k, s0, e);
    var s3 := Do(k, s2, Send(0));
    Reaches(k, s2, Send(0));
    s := Do(k, s3, Finish(0, Propagation));
    Reaches(k, s3, Finish(0, Propagation));
    assert (s3.writes - {0}).Keys == {};
  }

  /** The broken case is real. */
  lemma StaleParkedReachable() returns (k: Key, s: State, e: Entry)
    ensures Reachable(k, s) && Parked(k, s, e) && s.phase.Idle? && !NoStale(s.redis, e) && !KeepsPromise(k, s, e)
  {
    k := Key("eth", "example.org", "json_rpc");
    e := Entry(k, 100, "benched");
    var s0 := State(10, EMPTY_CELL, None, Some(Entry(k, 5, "benched")), multiset{}, map[], 0, Idle, 0, 0, false, ZERO_ENTRY, false, NoEvent);
    s := StaleRun(k, s0, e);
    StaleFieldBreaksPromise(k, s, e);
  }
}
