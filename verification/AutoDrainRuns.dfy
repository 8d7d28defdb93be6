/**
 The counters over any run of hook calls: every ring is the ring of the calls its pool let
 through, so what the window sums is what the last ten minutes held.
 */
module AutoDrainRuns {
  import opened Prelude
  import opened MinuteRing
  import opened AutoDrainCounts
  import opened AutoDrainLogs
  import opened AutoDrainHooks
  import opened AutoDrainWindow
  import opened AutoDrainMethodSums
  import opened AutoDrainOutlier
  import opened AutoDrainLogged

  /** A call and the minute it came in. */
  datatype Timed = Timed(minute: int, call: Call)

  lemma StepKeeps(s: State, minute: int, c: Call)
    requires WellFormed(s)
    ensures WellFormed(Step(s, minute, c))
  {
  }

  /** The counters after a run that began with nothing counted. */
  function After(calls: seq<Timed>, leader: bool): (s: State)
    ensures WellFormed(s)
    decreases |calls|
  {
    if calls == [] then State(leader, map[], map[])
    else
      var pre, last := After(calls[..|calls| - 1], leader), calls[|calls| - 1];
      StepKeeps(pre, last.minute, last.call);
      Step(pre, last.minute, last.call)
  }

  /** Whether hooks count after a run: what the last evaluation found of leadership. */
  predicate CountingIn(calls: seq<Timed>, leader: bool)
    decreases |calls|
  {
    if calls == [] then leader
    else
      var last := calls[|calls| - 1].call;
      if last.SetCounting? then last.leader else CountingIn(calls[..|calls| - 1], leader)
  }

  /** What a call adds to a pool's log. */
  function PoolEntry(counting: bool, t: Timed, k: PoolKey): seq<Stamped<Event>> {
    var e := LetThrough(counting, t.call);
    if e.Some? && t.call.k == k then [Stamped(t.minute, e.value)] else []
  }

  /** The calls a pool let through. */
  function PoolLog(calls: seq<Timed>, leader: bool, k: PoolKey): seq<Stamped<Event>>
    decreases |calls|
  {
    if calls == [] then []
    else
      var n := |calls| - 1;
      PoolLog(calls[..n], leader, k) + PoolEntry(CountingIn(calls[..n], leader), calls[n], k)
  }

  /** Whether a service has a pool: some call for it was let through. */
  predicate HasPool(calls: seq<Timed>, leader: bool, svc: string)
    decreases |calls|
  {
    if calls == [] then false
    else
      var n := |calls| - 1;
      || HasPool(calls[..n], leader, svc)
      || (LetThrough(CountingIn(calls[..n], leader), calls[n].call).Some? && calls[n].call.k.svc == svc)
  }

  function ClientEntry(counting: bool, known: bool, t: Timed, svc: string): seq<Stamped<Answer>> {
    if counting && known && svc != "" && t.call.OnClientResult? && t.call.svc == svc
    then [Stamped(t.minute, Answer(t.call.status, t.call.fromChain))] else []
  }

  /** The answers counted for a service: those that came once it had a pool. */
  function ClientLog(calls: seq<Timed>, leader: bool, svc: string): seq<Stamped<Answer>>
    decreases |calls|
  {
    if calls == [] then []
    else
      var n := |calls| - 1;
      ClientLog(calls[..n], leader, svc) + ClientEntry(CountingIn(calls[..n], leader), HasPool(calls[..n], leader, svc), calls[n], svc)
  }

  lemma {:induction false} CountingFollows(calls: seq<Timed>, leader: bool)
    ensures After(calls, leader).counting == CountingIn(calls, leader)
    decreases |calls|
  {
    if calls != [] {
      CountingFollows(calls[..|calls| - 1], leader);
    }
  }

  // ------------------------------------------------------- rings follow logs

  /** A pool's ring, empty before its first call. */
  function RingIn(s: State, k: PoolKey): seq<Slot<Minute>> {
    if k in s.pools then s.pools[k] else ZeroRing(EMPTY_MINUTE)
  }

  function ClientRingIn(s: State, svc: string): seq<Slot<ClientMinute>> {
    if svc in s.clients then s.clients[svc] else ZeroRing(EMPTY_CLIENT)
  }

  lemma StepOnPool(s: State, t: Timed, k: PoolKey)
    requires WellFormed(s)
    ensures var entry := PoolEntry(s.counting, t, k);
            var ring := RingIn(s, k);
            && |ring| == SLOTS
            && RingIn(Step(s, t.minute, t.call), k) ==
               if entry == [] then ring else Written(ring, t.minute, Count(Current(ring, t.minute, EMPTY_MINUTE), entry[0].event))
  {
  }

  lemma PoolFollows(s: State, t: Timed, k: PoolKey, log: seq<Stamped<Event>>)
    requires WellFormed(s) && RingIn(s, k) == PoolRing(log)
    ensures RingIn(Step(s, t.minute, t.call), k) == PoolRing(log + PoolEntry(s.counting, t, k))
  {
    StepOnPool(s, t, k);
    var entry := PoolEntry(s.counting, t, k);
    if entry == [] {
      assert log + entry == log;
    } else {
      PoolRingMore(log, t.minute, entry[0].event);
    }
  }

  /** Every pool's ring is the ring of the calls it let through. */
  lemma {:induction false} PoolsFollow(calls: seq<Timed>, leader: bool, k: PoolKey)
    ensures RingIn(After(calls, leader), k) == PoolRing(PoolLog(calls, leader, k))
    decreases |calls|
  {
    if calls != [] {
      var n := |calls| - 1;
      var s, t, log := After(calls[..n], leader), calls[n], PoolLog(calls[..n], leader, k);
      PoolsFollow(calls[..n], leader, k);
      CountingFollows(calls[..n], leader);
      PoolFollows(s, t, k, log);
    }
  }

  lemma StepOnClient(s: State, t: Timed, svc: string)
    requires WellFormed(s)
    ensures var entry := ClientEntry(s.counting, svc in s.clients, t, svc);
            var ring := ClientRingIn(s, svc);
            && |ring| == SLOTS
            && ClientRingIn(Step(s, t.minute, t.call), svc) ==
               if entry == [] then ring else Written(ring, t.minute, CountClient(Current(ring, t.minute, EMPTY_CLIENT), entry[0].event))
  {
  }

  lemma ClientFollows(s: State, t: Timed, svc: string, log: seq<Stamped<Answer>>)
    requires WellFormed(s) && ClientRingIn(s, svc) == ClientRing(log)
    ensures ClientRingIn(Step(s, t.minute, t.call), svc) == ClientRing(log + ClientEntry(s.counting, svc in s.clients, t, svc))
  {
    StepOnClient(s, t, svc);
    var entry := ClientEntry(s.counting, svc in s.clients, t, svc);
    if entry == [] {
      assert log + entry == log;
    } else {
      ClientRingMore(log, t.minute, entry[0].event);
    }
  }

  /** Every service's client ring is the ring of the answers counted for it. */
  lemma {:induction false} ClientsFollow(calls: seq<Timed>, leader: bool, svc: string)
    ensures ClientRingIn(After(calls, leader), svc) == ClientRing(ClientLog(calls, leader, svc))
    decreases |calls|
  {
    if calls != [] {
      var n := |calls| - 1;
      var s, t, log := After(calls[..n], leader), calls[n], ClientLog(calls[..n], leader, svc);
      ClientsFollow(calls[..n], leader, svc);
      CountingFollows(calls[..n], leader);
      ServicesWithPools(calls[..n], leader, svc);
      ClientFollows(s, t, svc, log);
    }
  }

  /** Answers are counted for exactly the services that have a pool. */
  lemma {:induction false} ServicesWithPools(calls: seq<Timed>, leader: bool, svc: string)
    ensures svc in After(calls, leader).clients <==> HasPool(calls, leader, svc)
    ensures forall k :: k in After(calls, leader).pools ==> k.svc in After(calls, leader).clients
    decreases |calls|
  {
    if calls != [] {
      var n := |calls| - 1;
      ServicesWithPools(calls[..n], leader, svc);
      CountingFollows(calls[..n], leader);
      OpensBoth(After(calls[..n], leader), calls[n], svc);
    }
  }

  lemma OpensBoth(s: State, t: Timed, svc: string)
    requires WellFormed(s) && forall k :: k in s.pools ==> k.svc in s.clients
    ensures var s', e := Step(s, t.minute, t.call), LetThrough(s.counting, t.call);
            && (svc in s'.clients <==> svc in s.clients || (e.Some? && t.call.k.svc == svc))
            && (forall k :: k in s'.pools ==> k.svc in s'.clients)
  {
  }

  // --------------------------------------------------------------- the clock

  /** The clock does not go back. */
  ghost predicate InTime(calls: seq<Timed>, now: int) {
    && (forall i :: 0 <= i < |calls| ==> 0 <= calls[i].minute <= now)
    && forall i, j :: 0 <= i < j < |calls| ==> calls[i].minute <= calls[j].minute
  }

  lemma InTimeBefore(calls: seq<Timed>, now: int)
    requires InTime(calls, now) && calls != []
    ensures 0 <= calls[|calls| - 1].minute <= now && InTime(calls[..|calls| - 1], calls[|calls| - 1].minute)
  {
  }

  lemma EntryTimely<E>(log: seq<Stamped<E>>, entry: seq<Stamped<E>>, minute: int, now: int)
    requires Timely(log, minute) && 0 <= minute <= now && |entry| <= 1 && (entry != [] ==> entry[0].minute == minute)
    ensures Timely(log + entry, now)
  {
    if entry == [] {
      assert log + entry == log;
    } else {
      TimelyMore(log, minute, minute, entry[0].event);
      assert log + entry == log + [Stamped(minute, entry[0].event)];
    }
  }

  lemma {:induction false} PoolLogTimely(calls: seq<Timed>, leader: bool, k: PoolKey, now: int)
    requires InTime(calls, now) && 0 <= now
    ensures Timely(PoolLog(calls, leader, k), now)
    decreases |calls|
  {
    if calls != [] {
      var n := |calls| - 1;
      InTimeBefore(calls, now);
      PoolLogTimely(calls[..n], leader, k, calls[n].minute);
      EntryTimely(PoolLog(calls[..n], leader, k), PoolEntry(CountingIn(calls[..n], leader), calls[n], k), calls[n].minute, now);
    }
  }

  lemma {:induction false} ClientLogTimely(calls: seq<Timed>, leader: bool, svc: string, now: int)
    requires InTime(calls, now) && 0 <= now
    ensures Timely(ClientLog(calls, leader, svc), now)
    decreases |calls|
  {
    if calls != [] {
      var n := |calls| - 1;
      InTimeBefore(calls, now);
      ClientLogTimely(calls[..n], leader, svc, calls[n].minute);
      var entry := ClientEntry(CountingIn(calls[..n], leader), HasPool(calls[..n], leader, svc), calls[n], svc);
      EntryTimely(ClientLog(calls[..n], leader, svc), entry, calls[n].minute, now);
    }
  }

  // ------------------------------------------------------------- the theorems

  /** The window's totals of a pool, after any run, count the calls let through in the last ten minutes. */
  lemma {:induction false} WindowCountsCalls(calls: seq<Timed>, leader: bool, k: PoolKey, now: int, totals: map<string, OpCount>,
        which: Counter, op: string)
    requires InTime(calls, now) && 0 <= now && Totals(totals, RingIn(After(calls, leader), k), now - SLOTS + 1)
    ensures Counted(Lookup(totals, op), which) == LogSum(PoolLog(calls, leader, k), now - SLOTS + 1, WorthOf(which, op))
  {
    var log := PoolLog(calls, leader, k);
    PoolsFollow(calls, leader, k);
    PoolLogTimely(calls, leader, k, now);
    TotalsMatchLog(log, totals, now, which, op);
  }

  lemma {:induction false} TotalsMatchLog(log: seq<Stamped<Event>>, totals: map<string, OpCount>, now: int, which: Counter, op: string)
    requires Timely(log, now) && Totals(totals, PoolRing(log), now - SLOTS + 1)
    ensures Counted(Lookup(totals, op), which) == LogSum(log, now - SLOTS + 1, WorthOf(which, op))
  {
    assert Lookup(totals, op) == WindowTotal(PoolRing(log), now - SLOTS + 1, op);
    TotalIsWindowSum(PoolRing(log), now - SLOTS + 1, op, which);
    CountersMatchLog(log, which, op, now);
  }

  /**
   So do its figures for a method, as far as it is kept apart: an operator's are at most its logged
   ones, and those exactly when every live slot keeps the method apart.
   */
  lemma {:induction false} WindowCountsMethods(calls: seq<Timed>, leader: bool, k: PoolKey, now: int, totals: map<string, OpCount>,
        f: Figure, op: string, meth: string)
    requires InTime(calls, now) && 0 <= now && Totals(totals, RingIn(After(calls, leader), k), now - SLOTS + 1) && meth != OVERFLOW
    ensures var log := PoolLog(calls, leader, k);
            var total, logged := TotalRead(Lookup(totals, op), meth, f), LogSum(log, now - SLOTS + 1, HitOf(f, op, meth));
            total <= logged && (total == logged <==> KeptApart(log, now - SLOTS + 1, f, op, meth))
  {
    PoolsFollow(calls, leader, k);
    PoolLogTimely(calls, leader, k, now);
    MethodTotalsMatchLog(PoolLog(calls, leader, k), now, totals, f, op, meth);
  }

  /** And the pool's, against everybody's logged ones. */
  lemma {:induction false} WindowCountsPoolMethods(calls: seq<Timed>, leader: bool, k: PoolKey, now: int, totals: map<string, OpCount>,
        pool: map<string, MethodCount>, f: Figure, meth: string)
    requires InTime(calls, now) && 0 <= now && Totals(totals, RingIn(After(calls, leader), k), now - SLOTS + 1)
    requires IsPoolAt(pool, totals, meth) && meth != OVERFLOW
    ensures var log := PoolLog(calls, leader, k);
            var total, logged := Read(MethodAt(pool, meth), f), LogSum(log, now - SLOTS + 1, AnyHit(f, meth));
            && total <= logged
            && (total == logged <==> forall op :: op in totals ==> KeptApart(log, now - SLOTS + 1, f, op, meth))
  {
    PoolsFollow(calls, leader, k);
    PoolLogTimely(calls, leader, k, now);
    PoolTotalsMatchLog(PoolLog(calls, leader, k), now, totals, pool, f, meth);
  }

  /** So do its collapses. */
  lemma {:induction false} CollapsesCountCalls(calls: seq<Timed>, leader: bool, k: PoolKey, now: int)
    requires InTime(calls, now) && 0 <= now
    ensures WindowSum(RingIn(After(calls, leader), k), now - SLOTS + 1, Collapses()) ==
            LogSum(PoolLog(calls, leader, k), now - SLOTS + 1, IsCollapse())
  {
    PoolsFollow(calls, leader, k);
    PoolLogTimely(calls, leader, k, now);
    CollapsesMatchLog(PoolLog(calls, leader, k), now);
  }

  /** And the two sums behind a service's client share. */
  lemma {:induction false} ClientShareCountsAnswers(calls: seq<Timed>, leader: bool, svc: string, now: int)
    requires InTime(calls, now) && 0 <= now
    ensures WindowSum(ClientRingIn(After(calls, leader), svc), now - SLOTS + 1, ClientTotals()) ==
            LogSum(ClientLog(calls, leader, svc), now - SLOTS + 1, One())
    ensures WindowSum(ClientRingIn(After(calls, leader), svc), now - SLOTS + 1, ClientFailures()) ==
            LogSum(ClientLog(calls, leader, svc), now - SLOTS + 1, IsClientFailure())
  {
    ClientsFollow(calls, leader, svc);
    ClientLogTimely(calls, leader, svc, now);
    ClientsMatchLog(ClientLog(calls, leader, svc), now);
  }

  /**
   After any run, every operator's fair attempts less failures are its answers, and what it is
   compared on lies in [0, 1]; while no live slot shares a bucket, it is what the log of the last
   ten minutes gives.
   */
  lemma {:induction false} RunComparison(calls: seq<Timed>, leader: bool, k: PoolKey, now: int, totals: map<string, OpCount>,
        pool: map<string, MethodCount>, op: string, r: Comparison)
    requires InTime(calls, now) && 0 <= now && op in totals
    requires Totals(totals, RingIn(After(calls, leader), k), now - SLOTS + 1) && IsPoolOf(pool, totals)
    requires Compares(r, totals[op].fair.methods, pool)
    ensures Conserves(totals[op].fair)
    ensures 0.0 <= r.share <= 1.0 && 0.0 <= r.peers <= 1.0
    ensures 0 <= r.matched <= LogSum(PoolLog(calls, leader, k), now - SLOTS + 1, IsAnswer(op))
    ensures r.outlier ==> r.excess >= CHAIN_GAP * r.matched as real >= 10.0
    ensures forall m :: m in Matched(totals[op].fair.methods, pool) ==> ComparableInLog(PoolLog(calls, leader, k), now - SLOTS + 1, op, m)
    ensures NoneShared(PoolLog(calls, leader, k), now - SLOTS + 1) ==> ComparesLogged(r, PoolLog(calls, leader, k), now - SLOTS + 1, op)
  {
    var log := PoolLog(calls, leader, k);
    PoolsFollow(calls, leader, k);
    PoolLogTimely(calls, leader, k, now);
    TotalsConserve(log, totals, now - SLOTS + 1);
    WindowComparison(log, now, totals, pool, op, r);
    MatchedComparable(log, now, totals, pool, op);
    if NoneShared(log, now - SLOTS + 1) {
      ComparisonMatchesLog(log, now, totals, pool, op, r);
    }
  }
}
