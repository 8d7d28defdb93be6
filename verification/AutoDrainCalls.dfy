/**
 The auto-drain counters against the hook calls themselves (autodrain/engine.go, OnCollapse,
 OnSignal, OnAttempt, OnClientResult): what each call is worth, filters and all, said without the
 hooks' own functions.
 */
module AutoDrainCalls {
  import opened Prelude
  import opened MinuteRing
  import opened AutoDrainCounts
  import opened AutoDrainLogs
  import opened AutoDrainMethods
  import opened AutoDrainHooks
  import opened AutoDrainWindow
  import opened AutoDrainMethodSums
  import opened AutoDrainEngine
  import opened AutoDrainRuns

  /** A relay attempt the operator is answerable for: every one but the client's own failures. */
  predicate AttemptOf(c: Call, k: PoolKey, op: string) {
    c.OnAttempt? && c.k == k && c.op == op && c.attribution in {AttrNone, AttrUnknown, AttrSupplier, AttrBlockchain}
  }

  /** A WebSocket relay's outcome. */
  predicate SignalOf(c: Call, k: PoolKey, op: string) {
    c.OnSignal? && c.k == k && c.op == op && k.rpc == "websocket" && !c.probe
  }

  /** An answer, the chain's own error included. */
  predicate AnsweredCall(c: Call)
    requires c.OnAttempt?
  {
    c.attribution in {AttrNone, AttrBlockchain}
  }

  predicate FairCall(c: Call)
    requires c.OnAttempt?
  {
    c.kind in {First, Probation}
  }

  /** What a call adds to an operator's plain counters other than picks, when hooks count. */
  function CallWorth(which: Counter, k: PoolKey, op: string, c: Call): int {
    match which
    case Attempts => if AttemptOf(c, k, op) || SignalOf(c, k, op) then 1 else 0
    case Successes => if (AttemptOf(c, k, op) && AnsweredCall(c)) || (SignalOf(c, k, op) && c.success) then 1 else 0
    case Firsts => if AttemptOf(c, k, op) && FairCall(c) then 1 else 0
    case FirstFails => if AttemptOf(c, k, op) && FairCall(c) && !AnsweredCall(c) then 1 else 0
    case Picks => if c.OnCollapse? && c.k == k then Occurrences(Picked(c.served, []), op) else 0
  }

  /** What it adds to a method's figures. */
  function CallHit(f: Figure, k: PoolKey, op: string, meth: string, c: Call): int {
    if !(AttemptOf(c, k, op) && FairCall(c) && AnsweredCall(c) && c.meth == meth) then 0
    else match f
         case OfAnswers => 1
         case OfErrors => if c.attribution == AttrBlockchain && !c.retried then 1 else 0
  }

  /** A quantity summed over the calls of a stretch of minutes, made while hooks counted. */
  function CallSum(calls: seq<Timed>, leader: bool, oldest: int, weight: Call -> int): int
    decreases |calls|
  {
    if calls == [] then 0
    else
      var n := |calls| - 1;
      CallSum(calls[..n], leader, oldest, weight) +
      if calls[n].minute >= oldest && CountingIn(calls[..n], leader) then weight(calls[n].call) else 0
  }

  function WorthOfCall(which: Counter, k: PoolKey, op: string): Call -> int {
    (c: Call) => CallWorth(which, k, op, c)
  }

  function HitOfCall(f: Figure, k: PoolKey, op: string, meth: string): Call -> int {
    (c: Call) => CallHit(f, k, op, meth, c)
  }

  function CollapseOfCall(k: PoolKey): Call -> int {
    (c: Call) => if c.OnCollapse? && c.k == k && c.served != [] then 1 else 0
  }

  /** One call: what its entry in the pool's log is worth is what the call is. */
  ghost predicate Weighs(k: PoolKey, weight: Call -> int, v: Event -> int) {
    forall c :: weight(c) == if LetThrough(true, c).Some? && c.k == k then v(LetThrough(true, c).value) else 0
  }

  lemma {:induction false} LogSumMore(log: seq<Stamped<Event>>, e: Stamped<Event>, oldest: int, v: Event -> int)
    ensures LogSum(log + [e], oldest, v) == LogSum(log, oldest, v) + if e.minute >= oldest then v(e.event) else 0
  {
    assert (log + [e])[..|log|] == log;
  }

  lemma {:induction false} EntrySum(log: seq<Stamped<Event>>, counting: bool, t: Timed, k: PoolKey, oldest: int, weight: Call -> int, v: Event -> int)
    requires Weighs(k, weight, v)
    ensures LogSum(log + PoolEntry(counting, t, k), oldest, v) ==
            LogSum(log, oldest, v) + if t.minute >= oldest && counting then weight(t.call) else 0
  {
    var entry := PoolEntry(counting, t, k);
    assert weight(t.call) == if LetThrough(true, t.call).Some? && t.call.k == k then v(LetThrough(true, t.call).value) else 0;
    if entry == [] {
      assert log + entry == log;
    } else {
      LogSumMore(log, entry[0], oldest, v);
    }
  }

  /** The log of let-through calls weighs what the calls do. */
  lemma {:induction false} LogWeighsCalls(calls: seq<Timed>, leader: bool, k: PoolKey, oldest: int, weight: Call -> int, v: Event -> int)
    requires Weighs(k, weight, v)
    ensures LogSum(PoolLog(calls, leader, k), oldest, v) == CallSum(calls, leader, oldest, weight)
    decreases |calls|
  {
    if calls != [] {
      var n := |calls| - 1;
      LogWeighsCalls(calls[..n], leader, k, oldest, weight, v);
      EntrySum(PoolLog(calls[..n], leader, k), CountingIn(calls[..n], leader), calls[n], k, oldest, weight, v);
    }
  }

  lemma CallsWeigh(which: Counter, k: PoolKey, op: string)
    ensures Weighs(k, WorthOfCall(which, k, op), WorthOf(which, op))
  {
  }

  lemma CallsHit(f: Figure, k: PoolKey, op: string, meth: string)
    ensures Weighs(k, HitOfCall(f, k, op, meth), HitOf(f, op, meth))
  {
  }

  /**
   After any run, an operator's five counters in the window are the calls of the last ten minutes:
   attempts and WebSocket outcomes, those that were answered, the first and probation attempts,
   those of them that failed, and the picks.
   */
  lemma {:induction false} CountersCountCalls(calls: seq<Timed>, leader: bool, k: PoolKey, now: int, totals: map<string, OpCount>,
        which: Counter, op: string)
    requires InTime(calls, now) && 0 <= now && Totals(totals, RingIn(After(calls, leader), k), now - SLOTS + 1)
    ensures Counted(Lookup(totals, op), which) == CallSum(calls, leader, now - SLOTS + 1, WorthOfCall(which, k, op))
  {
    WindowCountsCalls(calls, leader, k, now, totals, which, op);
    CallsWeigh(which, k, op);
    LogWeighsCalls(calls, leader, k, now - SLOTS + 1, WorthOfCall(which, k, op), WorthOf(which, op));
  }

  /** A method's figures, at most, and exactly where every minute had room for it. */
  lemma {:induction false} MethodsCountCalls(calls: seq<Timed>, leader: bool, k: PoolKey, now: int, totals: map<string, OpCount>,
        f: Figure, op: string, meth: string)
    requires InTime(calls, now) && 0 <= now && Totals(totals, RingIn(After(calls, leader), k), now - SLOTS + 1) && meth != OVERFLOW
    ensures var total, made := TotalRead(Lookup(totals, op), meth, f), CallSum(calls, leader, now - SLOTS + 1, HitOfCall(f, k, op, meth));
            total <= made && (total == made <==> KeptApart(PoolLog(calls, leader, k), now - SLOTS + 1, f, op, meth))
  {
    WindowCountsMethods(calls, leader, k, now, totals, f, op, meth);
    CallsHit(f, k, op, meth);
    LogWeighsCalls(calls, leader, k, now - SLOTS + 1, HitOfCall(f, k, op, meth), HitOf(f, op, meth));
  }

  /** The pool's collapses are the calls that served somebody. */
  lemma {:induction false} CollapsesAreCalls(calls: seq<Timed>, leader: bool, k: PoolKey, now: int)
    requires InTime(calls, now) && 0 <= now
    ensures WindowSum(RingIn(After(calls, leader), k), now - SLOTS + 1, Collapses()) ==
            CallSum(calls, leader, now - SLOTS + 1, CollapseOfCall(k))
  {
    CollapsesCountCalls(calls, leader, k, now);
    assert Weighs(k, CollapseOfCall(k), IsCollapse());
    LogWeighsCalls(calls, leader, k, now - SLOTS + 1, CollapseOfCall(k), IsCollapse());
  }

  // ------------------------------------------------------------ client answers

  /** The service had a pool by then: some call that counted named it. */
  predicate PoolBy(calls: seq<Timed>, leader: bool, svc: string) {
    exists i :: 0 <= i < |calls| && CountingIn(calls[..i], leader) && OpensPool(calls[i].call, svc)
  }

  predicate OpensPool(c: Call, svc: string) {
    || (c.OnCollapse? && c.k.svc == svc && c.served != [])
    || (c.OnSignal? && c.k.svc == svc && c.k.rpc == "websocket" && !c.probe)
    || (c.OnAttempt? && c.k.svc == svc && c.attribution != AttrClient)
  }

  lemma {:induction false} PoolByStep(calls: seq<Timed>, leader: bool, svc: string)
    requires calls != []
    ensures var n := |calls| - 1;
            PoolBy(calls, leader, svc) <==> PoolBy(calls[..n], leader, svc) || (CountingIn(calls[..n], leader) && OpensPool(calls[n].call, svc))
  {
    var n := |calls| - 1;
    assert forall i :: 0 <= i < n ==> calls[..n][..i] == calls[..i] && calls[..n][i] == calls[i];
  }

  lemma {:induction false} PoolByCalls(calls: seq<Timed>, leader: bool, svc: string)
    ensures HasPool(calls, leader, svc) <==> PoolBy(calls, leader, svc)
    decreases |calls|
  {
    if calls != [] {
      PoolByCalls(calls[..|calls| - 1], leader, svc);
      PoolByStep(calls, leader, svc);
    }
  }

  /** An answer counts for a service by then with a pool: any answer, or one that failed. */
  function AnswerWorth(counting: bool, known: bool, t: Timed, svc: string, oldest: int, failed: bool): int {
    var c := t.call;
    if && t.minute >= oldest && counting && known
       && c.OnClientResult? && c.svc == svc && svc != ""
       && (failed ==> !c.fromChain && (c.status == 408 || c.status == 429 || c.status >= 500))
    then 1 else 0
  }

  /** The answers of a stretch of minutes that count for a service, all of them or the failed ones. */
  function AnswerSum(calls: seq<Timed>, leader: bool, svc: string, oldest: int, failed: bool): int
    decreases |calls|
  {
    if calls == [] then 0
    else
      var n := |calls| - 1;
      AnswerSum(calls[..n], leader, svc, oldest, failed) +
      AnswerWorth(CountingIn(calls[..n], leader), PoolBy(calls[..n], leader, svc), calls[n], svc, oldest, failed)
  }

  function AnswerWeight(failed: bool): Answer -> int {
    if failed then IsClientFailure() else One()
  }

  lemma {:induction false} AnswerEntry(log: seq<Stamped<Answer>>, counting: bool, known: bool, t: Timed, svc: string, oldest: int, failed: bool)
    ensures LogSum(log + ClientEntry(counting, known, t, svc), oldest, AnswerWeight(failed)) ==
            LogSum(log, oldest, AnswerWeight(failed)) + AnswerWorth(counting, known, t, svc, oldest, failed)
  {
    var entry := ClientEntry(counting, known, t, svc);
    if entry == [] {
      assert log + entry == log;
    } else {
      assert (log + entry)[..|log|] == log;
    }
  }

  lemma {:induction false} AnswersAreCalls(calls: seq<Timed>, leader: bool, svc: string, oldest: int, failed: bool)
    ensures LogSum(ClientLog(calls, leader, svc), oldest, AnswerWeight(failed)) == AnswerSum(calls, leader, svc, oldest, failed)
    decreases |calls|
  {
    if calls != [] {
      var n := |calls| - 1;
      AnswersAreCalls(calls[..n], leader, svc, oldest, failed);
      PoolByCalls(calls[..n], leader, svc);
      AnswerEntry(ClientLog(calls[..n], leader, svc), CountingIn(calls[..n], leader), PoolBy(calls[..n], leader, svc), calls[n],
                  svc, oldest, failed);
    }
  }

  /**
   After any run, the client share of a service is the failed answers over all answers of the last
   ten minutes: timeouts, rate limits and server errors the chain itself did not give, to clients of
   a service that had a pool by then.
   */
  lemma {:induction false} ClientShareCountsCalls(calls: seq<Timed>, leader: bool, svc: string, now: int)
    requires InTime(calls, now) && 0 <= now
    ensures WindowSum(ClientRingIn(After(calls, leader), svc), now - SLOTS + 1, ClientTotals()) ==
            AnswerSum(calls, leader, svc, now - SLOTS + 1, false)
    ensures WindowSum(ClientRingIn(After(calls, leader), svc), now - SLOTS + 1, ClientFailures()) ==
            AnswerSum(calls, leader, svc, now - SLOTS + 1, true)
  {
    ClientShareCountsAnswers(calls, leader, svc, now);
    AnswersAreCalls(calls, leader, svc, now - SLOTS + 1, false);
    AnswersAreCalls(calls, leader, svc, now - SLOTS + 1, true);
  }

  lemma {:induction false} AnswersWithin(calls: seq<Timed>, leader: bool, svc: string, oldest: int)
    ensures 0 <= AnswerSum(calls, leader, svc, oldest, true) <= AnswerSum(calls, leader, svc, oldest, false)
    decreases |calls|
  {
    if calls != [] {
      AnswersWithin(calls[..|calls| - 1], leader, svc, oldest);
    }
  }

  /** A share of a whole, without the division. */
  predicate ShareOf(share: real, part: int, whole: int) {
    0 <= part <= whole && share * whole as real == part as real && (whole == 0 ==> share == 0.0)
  }

  lemma ShareTimes(share: real, part: int, whole: int)
    requires IsShare(share, part, whole) && 0 <= part <= whole
    ensures ShareOf(share, part, whole)
  {
  }

  /** The share a service's clients saw fail: of the answers that counted, the failed ones; 0 where there were none. */
  lemma {:induction false} ShareOfCalls(calls: seq<Timed>, leader: bool, svc: string, now: int, share: real, part: int, whole: int)
    requires InTime(calls, now) && 0 <= now && IsShare(share, part, whole)
    requires part == WindowSum(ClientRingIn(After(calls, leader), svc), now - SLOTS + 1, ClientFailures())
    requires whole == WindowSum(ClientRingIn(After(calls, leader), svc), now - SLOTS + 1, ClientTotals())
    ensures part == AnswerSum(calls, leader, svc, now - SLOTS + 1, true)
    ensures whole == AnswerSum(calls, leader, svc, now - SLOTS + 1, false)
    ensures ShareOf(share, part, whole)
  {
    ClientShareCountsCalls(calls, leader, svc, now);
    AnswersWithin(calls, leader, svc, now - SLOTS + 1);
    ShareTimes(share, part, whole);
  }
}
