/**
 Nothing is lost between the steps of drain propagation (drain/redis.go): every admin call is
 decided once, every write that begins finishes once, every delete asked for is answered once,
 and what a refresh holds to lay down had time left when it looked.
 */
module DrainAccounts {
  import opened Prelude
  import opened DrainKeys
  import opened DrainCells
  import opened DrainRecords
  import opened DrainProtocol

  datatype Quantity = CallsMade | CallsDecided | WritesBegun | WritesFinished | DeletesAsked | DeletesAnswered

  /** What a step adds to a quantity, told from the state it is taken in. */
  ghost function Adds(q: Quantity, k: Key, s: State, step: Step): nat
    requires Enabled(k, s, step)
  {
    match q
    case CallsMade => if step.LocalSet? || step.LocalRelease? then 1 else 0
    case CallsDecided => if step.Decide? then 1 else 0
    case WritesBegun =>
      if step.Decide? && step.call.SetCall? && s.clock < step.call.e.until then 1
      else if step.TakeRetry? && s.record.Some? && s.record.value.pending && s.phase.now < s.record.value.entry.until then 1
      else 0
    case WritesFinished => if step.Finish? then 1 else 0
    case DeletesAsked =>
      if step.Decide? && (step.call.ReleaseCall? || step.call.e.until <= s.clock) then 1
      else if step.Finish? && s.lastIsRelease && s.writes[step.id].decision != s.decisions then 1
      else 0
    case DeletesAnswered => if step.DelLands? || step.DelFails? then 1 else 0
  }

  ghost function Tally(q: Quantity, k: Key, s: State, steps: seq<Step>): nat
    requires Possible(k, s, steps)
    decreases |steps|
  {
    if steps == [] then 0
    else
      var pre := steps[..|steps| - 1];
      Tally(q, k, s, pre) + Adds(q, k, After(k, s, pre), steps[|steps| - 1])
  }

  lemma CallsStep(k: Key, s: State, step: Step)
    requires Enabled(k, s, step)
    ensures |Do(k, s, step).calls| + Adds(CallsDecided, k, s, step) == |s.calls| + Adds(CallsMade, k, s, step)
    ensures Do(k, s, step).decisions == s.decisions + Adds(CallsDecided, k, s, step)
  {
  }

  lemma DecideWrites(k: Key, s: State, call: Call)
    requires call in s.calls && RecordsInv(k, s)
    ensures |DoDecide(s, call).writes| == |s.writes| + Adds(WritesBegun, k, s, Decide(call))
  {
    var s' := DoDecide(s, call);
    if call.SetCall? && s.clock < call.e.until {
      AddWrite(s.writes, s.nextId, s'.writes[s.nextId]);
    }
  }

  lemma RetryWrites(k: Key, s: State)
    requires s.phase.Scanned? && RecordsInv(k, s)
    ensures |DoTakeRetry(s).writes| == |s.writes| + Adds(WritesBegun, k, s, TakeRetry)
  {
    var s' := DoTakeRetry(s);
    if s'.nextId != s.nextId {
      AddWrite(s.writes, s.nextId, s'.writes[s.nextId]);
    }
  }

  lemma WireWrites(k: Key, s: State, step: Step)
    requires Enabled(k, s, step) && (step.Send? || step.Land?)
    ensures |Do(k, s, step).writes| == |s.writes|
  {
    assert Do(k, s, step).writes.Keys == s.writes.Keys;
  }

  lemma WritesStep(k: Key, s: State, step: Step)
    requires Enabled(k, s, step) && RecordsInv(k, s)
    ensures |Do(k, s, step).writes| + Adds(WritesFinished, k, s, step) == |s.writes| + Adds(WritesBegun, k, s, step)
  {
    if Framed(step) {
      FramedLeaves(k, s, step);
    } else if step.Send? || step.Land? {
      WireWrites(k, s, step);
    } else {
      match step
      case Decide(call) => DecideWrites(k, s, call);
      case TakeRetry => RetryWrites(k, s);
      case Finish(id, _) => DropWrite(s.writes, id);
    }
  }

  lemma DeletesStep(k: Key, s: State, step: Step)
    requires Enabled(k, s, step) && RecordsInv(k, s)
    ensures Do(k, s, step).dels + Adds(DeletesAnswered, k, s, step) == s.dels + Adds(DeletesAsked, k, s, step)
  {
    if step.Finish? {
      assert WriteInv(k, s, s.writes[step.id]);
    }
  }

  /** The last delete that was answered failed. */
  predicate LastDeleteFailed(steps: seq<Step>) {
    if steps == [] then false
    else
      var last := steps[|steps| - 1];
      if last.DelLands? then false else last.DelFails? || LastDeleteFailed(steps[..|steps| - 1])
  }

  /**
   Over every run: the calls not yet decided, the writes on the wire and the deletes on the wire
   are exactly those begun and not done with, and `lost` says that the last delete failed.
   */
  lemma {:induction false} EverythingAccounted(k: Key, s0: State, steps: seq<Step>)
    requires Init(k, s0) && Possible(k, s0, steps)
    ensures var s := After(k, s0, steps);
            && |s.calls| + Tally(CallsDecided, k, s0, steps) == Tally(CallsMade, k, s0, steps)
            && s.decisions == Tally(CallsDecided, k, s0, steps)
            && |s.writes| + Tally(WritesFinished, k, s0, steps) == Tally(WritesBegun, k, s0, steps)
            && s.dels + Tally(DeletesAnswered, k, s0, steps) == Tally(DeletesAsked, k, s0, steps)
            && (s.lost <==> LastDeleteFailed(steps))
    decreases |steps|
  {
    if steps != [] {
      var pre, last := steps[..|steps| - 1], steps[|steps| - 1];
      EverythingAccounted(k, s0, pre);
      RunKeepsInv(k, s0, pre);
      CallsStep(k, After(k, s0, pre), last);
      WritesStep(k, After(k, s0, pre), last);
      DeletesStep(k, After(k, s0, pre), last);
      LostStep(k, After(k, s0, pre), last);
    }
  }

  lemma LostStep(k: Key, s: State, step: Step)
    requires Enabled(k, s, step)
    ensures Do(k, s, step).lost <==> if step.DelLands? then false else step.DelFails? || s.lost
  {
  }

  // ------------------------------------------------------ what a refresh holds

  /** What is to be laid down had time left when the refresh looked at its clock. */
  predicate NextLive(p: Phase) {
    (p.Scanned? || p.Retrying? || p.Reconciled?) && p.next.Some? ==> p.now < p.next.value.until
  }

  lemma NextLiveStep(k: Key, s: State, step: Step)
    requires Enabled(k, s, step) && NextLive(s.phase)
    ensures NextLive(Do(k, s, step).phase)
  {
  }

  lemma {:induction false} RefreshHoldsLive(k: Key, s0: State, steps: seq<Step>)
    requires Init(k, s0) && Possible(k, s0, steps)
    ensures NextLive(After(k, s0, steps).phase)
    decreases |steps|
  {
    if steps != [] {
      RefreshHoldsLive(k, s0, steps[..|steps| - 1]);
      NextLiveStep(k, After(k, s0, steps[..|steps| - 1]), steps[|steps| - 1]);
    }
  }

  /** A write goes out exactly when its entry has time left and can be encoded. */
  lemma SentExactlyWhen(k: Key, s: State, id: nat)
    requires Enabled(k, s, Send(id))
    ensures var w, w' := s.writes[id], Do(k, s, Send(id)).writes[id];
            && w'.entry == w.entry && w'.gen == w.gen
            && (w'.wire == Sent <==> s.clock < w.entry.until < 315537897600)
            && (w'.wire == Skipped <==> w.entry.until <= s.clock)
  {
  }
}
