/**
 The auto-drain engine's counters (autodrain/engine.go, Engine): one ring of minutes per
 pool and per service, changed in place by the hooks and summed by window and clientShare.
 */
module AutoDrainLogs {
  import opened MinuteRing
  import opened AutoDrainCounts

  /** A pool's ring after its accepted hook calls. */
  function PoolRing(log: seq<Stamped<Event>>): (ring: seq<Slot<Minute>>)
    ensures |ring| == SLOTS
  {
    RingAfter(log, EMPTY_MINUTE, Count)
  }

  /** A service's client ring after its accepted answers. */
  function ClientRing(log: seq<Stamped<Answer>>): (ring: seq<Slot<ClientMinute>>)
    ensures |ring| == SLOTS
  {
    RingAfter(log, EMPTY_CLIENT, CountClient)
  }

  lemma PoolRingMore(log: seq<Stamped<Event>>, minute: int, e: Event)
    ensures PoolRing(log + [Stamped(minute, e)]) == Written(PoolRing(log), minute, Count(Current(PoolRing(log), minute, EMPTY_MINUTE), e))
  {
    var more := log + [Stamped(minute, e)];
    assert more[..|more| - 1] == log;
  }

  lemma ClientRingMore(log: seq<Stamped<Answer>>, minute: int, a: Answer)
    ensures ClientRing(log + [Stamped(minute, a)]) == Written(ClientRing(log), minute, CountClient(Current(ClientRing(log), minute, EMPTY_CLIENT), a))
  {
    var more := log + [Stamped(minute, a)];
    assert more[..|more| - 1] == log;
  }

  ghost predicate Timely<E>(log: seq<Stamped<E>>, latest: int) {
    Ordered(log) && Latest(log) <= latest
  }

  lemma TimelyMore<E>(log: seq<Stamped<E>>, latest: int, minute: int, e: E)
    requires Timely(log, latest) && 0 <= latest <= minute
    ensures Timely(log + [Stamped(minute, e)], minute)
  {
    forall i | 0 <= i < |log|
      ensures log[i].minute <= minute
    {
    }
  }
}

/** The hooks as steps on values: what a call does to the counters. */
module AutoDrainHooks {
  import opened Prelude
  import opened MinuteRing
  import opened AutoDrainCounts

  datatype PoolKey = PoolKey(svc: string, rpc: string)

  const WEBSOCKET := "websocket"

  datatype Call =
    | SetCounting(leader: bool)
    | OnCollapse(k: PoolKey, served: seq<string>)
    | OnSignal(k: PoolKey, op: string, success: bool, probe: bool)
    | OnAttempt(k: PoolKey, op: string, attribution: Attribution, kind: Kind, meth: string, retried: bool)
    | OnClientResult(svc: string, status: int, fromChain: bool)

  datatype State = State(counting: bool, pools: map<PoolKey, seq<Slot<Minute>>>, clients: map<string, seq<Slot<ClientMinute>>>)

  predicate WellFormed(s: State) {
    && (forall k :: k in s.pools ==> |s.pools[k]| == SLOTS)
    && (forall svc :: svc in s.clients ==> |s.clients[svc]| == SLOTS)
  }

  /** The event a call stands for, when its hook lets it through. */
  function LetThrough(counting: bool, c: Call): Option<Event> {
    match c
    case OnCollapse(_, served) => if counting && served != [] then Some(Collapse(served)) else None
    case OnSignal(k, op, success, probe) => if counting && !probe && k.rpc == WEBSOCKET then Some(Signal(op, success)) else None
    case OnAttempt(_, op, attribution, kind, meth, retried) =>
      if counting && attribution != AttrClient then Some(Attempt(op, attribution, kind, meth, retried)) else None
    case _ => None
  }

  function Opened(s: State, k: PoolKey): State {
    if k in s.pools then s
    else State(s.counting, s.pools[k := ZeroRing(EMPTY_MINUTE)], if k.svc in s.clients then s.clients else s.clients[k.svc := ZeroRing(EMPTY_CLIENT)])
  }

  function Recorded(s: State, k: PoolKey, minute: int, e: Event): State
    requires k in s.pools && |s.pools[k]| == SLOTS
  {
    var ring := s.pools[k];
    s.(pools := s.pools[k := Written(ring, minute, Count(Current(ring, minute, EMPTY_MINUTE), e))])
  }

  /** An answer is counted only for a named service with a pool. */
  predicate CountsAnswer(s: State, c: Call) {
    c.OnClientResult? && s.counting && c.svc != "" && c.svc in s.clients
  }

  function Tallied(s: State, svc: string, minute: int, a: Answer): State
    requires svc in s.clients && |s.clients[svc]| == SLOTS
  {
    var ring := s.clients[svc];
    s.(clients := s.clients[svc := Written(ring, minute, CountClient(Current(ring, minute, EMPTY_CLIENT), a))])
  }

  function Step(s: State, minute: int, c: Call): State
    requires WellFormed(s)
  {
    if c.SetCounting? then s.(counting := c.leader)
    else if c.OnClientResult? then
      if CountsAnswer(s, c) then Tallied(s, c.svc, minute, Answer(c.status, c.fromChain)) else s
    else
      var e := LetThrough(s.counting, c);
      if e.None? then s else Recorded(Opened(s, c.k), c.k, minute, e.value)
  }
}

module AutoDrainEngine {
  import opened Prelude
  import opened MinuteRing
  import opened AutoDrainCounts
  import opened AutoDrainHooks
  import opened AutoDrainWindow

  /** The picks one collapse adds: each served operator once, as far as four are remembered. */
  method CountPicks(ops: map<string, OpCount>, served: seq<string>) returns (after: map<string, OpCount>)
    ensures after == AddPicks(ops, Picked(served, []))
  {
    after := ops;
    var seen := new string[MAX_SEEN];
    var n := 0;
    assert seen[..0] == [];
    for i := 0 to |served|
      invariant 0 <= n <= MAX_SEEN
      invariant AddPicks(after, Picked(served[i..], seen[..n])) == AddPicks(ops, Picked(served, []))
    {
      var op, dup := served[i], false;
      for j := 0 to n
        invariant dup <==> op in seen[..j]
      {
        dup := dup || seen[j] == op;
      }
      ghost var was := seen[..n];
      assert served[i..][1..] == served[i + 1..];
      if !dup {
        if n < seen.Length {
          seen[n] := op;
          n := n + 1;
          assert seen[..n] == was + [op];
        }
        var c := OpAt(after, op);
        ghost var rest := Picked(served[i + 1..], seen[..n]);
        assert Picked(served[i..], was) == [op] + rest;
        assert ([op] + rest)[1..] == rest;
        after := after[op := c.(picks := c.picks + 1)];
      }
    }
  }

  /** The slot's collapse and operators after an accepted collapse. */
  method CountCollapse(m: Minute, served: seq<string>) returns (after: Minute)
    ensures after == Count(m, Collapse(served))
  {
    var ops := CountPicks(m.ops, served);
    after := Minute(m.collapse + 1, ops);
  }

  method CountOneSignal(m: Minute, op: string, success: bool) returns (after: Minute)
    ensures after == Count(m, Signal(op, success))
  {
    var c := OpAt(m.ops, op);
    var t := Traffic(c.traffic.attempts + 1, c.traffic.successes);
    if success {
      t := t.(successes := t.successes + 1);
    }
    after := m.(ops := m.ops[op := c.(traffic := t)]);
  }

  /** Every attempt is traffic; a first or probation attempt is also in the fair sample. */
  method CountOneAttempt(m: Minute, op: string, attribution: Attribution, kind: Kind, meth: string,
        retried: bool) returns (after: Minute)
    ensures after == Count(m, Attempt(op, attribution, kind, meth, retried))
  {
    var c := OpAt(m.ops, op);
    var failed := attribution == AttrSupplier || attribution == AttrUnknown;
    c := c.(traffic := Traffic(c.traffic.attempts + 1, c.traffic.successes));
    if !failed {
      c := c.(traffic := Traffic(c.traffic.attempts, c.traffic.successes + 1));
    }
    if kind == First || kind == Probation {
      c := c.(fair := c.fair.(firsts := c.fair.firsts + 1));
      if failed {
        c := c.(fair := c.fair.(firstFails := c.fair.firstFails + 1));
      } else {
        c := c.(fair := c.fair.(methods := CountAnswer(c.fair.methods, meth, attribution == AttrBlockchain && !retried)));
      }
    }
    after := m.(ops := m.ops[op := c]);
  }

  /** The engine's counters. */
  class Engine {
    var counting: bool
    var pools: map<PoolKey, seq<Slot<Minute>>>
    var clients: map<string, seq<Slot<ClientMinute>>>

    function View(): State
      reads this
    {
      State(counting, pools, clients)
    }

    predicate Valid()
      reads this
    {
      WellFormed(View())
    }

    constructor (leader: bool)
      ensures Valid() && View() == State(leader, map[], map[])
    {
      counting, pools, clients := leader, map[], map[];
    }

    /** Only the leader counts. */
    method SetCounting(leader: bool)
      requires Valid()
      modifies this
      ensures Valid() && View() == Step(old(View()), 0, AutoDrainHooks.SetCounting(leader))
    {
      counting := leader;
    }

    /** Finds or makes a pool, and its service's client ring with it. */
    method OpenPool(k: PoolKey)
      requires Valid()
      modifies this
      ensures Valid() && View() == Opened(old(View()), k)
    {
      if k !in pools {
        pools := pools[k := ZeroRing(EMPTY_MINUTE)];
        if k.svc !in clients {
          clients := clients[k.svc := ZeroRing(EMPTY_CLIENT)];
        }
      }
    }

    /** The collapse hook; nothing served is no collapse. */
    method OnCollapse(k: PoolKey, served: seq<string>, now: int)
      requires Valid()
      modifies this
      ensures Valid() && View() == Step(old(View()), now / 60, AutoDrainHooks.OnCollapse(k, served))
    {
      if !counting || |served| == 0 {
        return;
      }
      OpenPool(k);
      var m := now / 60;
      var body := CountCollapse(Current(pools[k], m, EMPTY_MINUTE), served);
      pools := pools[k := Written(pools[k], m, body)];
    }

    /** The signal hook, read for WebSocket pools only and never for probes. */
    method OnSignal(k: PoolKey, op: string, success: bool, probe: bool, now: int)
      requires Valid()
      modifies this
      ensures Valid() && View() == Step(old(View()), now / 60, AutoDrainHooks.OnSignal(k, op, success, probe))
    {
      if probe || k.rpc != WEBSOCKET || !counting {
        return;
      }
      OpenPool(k);
      var m := now / 60;
      var body := CountOneSignal(Current(pools[k], m, EMPTY_MINUTE), op, success);
      pools := pools[k := Written(pools[k], m, body)];
    }

    /** The attempt hook; a client's own failure is nobody's. */
    method OnAttempt(k: PoolKey, op: string, attribution: Attribution, kind: Kind, meth: string, retried: bool,
          now: int)
      requires Valid()
      modifies this
      ensures Valid() && View() == Step(old(View()), now / 60, AutoDrainHooks.OnAttempt(k, op, attribution, kind, meth, retried))
    {
      if !counting || attribution == AttrClient {
        return;
      }
      OpenPool(k);
      var m := now / 60;
      var body := CountOneAttempt(Current(pools[k], m, EMPTY_MINUTE), op, attribution, kind, meth, retried);
      pools := pools[k := Written(pools[k], m, body)];
    }

    /** The client-facing answers, counted only for a service with a pool. */
    method OnClientResult(svc: string, status: int, fromChain: bool, now: int)
      requires Valid()
      modifies this
      ensures Valid() && View() == Step(old(View()), now / 60, AutoDrainHooks.OnClientResult(svc, status, fromChain))
    {
      if svc == "" || !counting || svc !in clients {
        return;
      }
      var m := now / 60;
      var s := Current(clients[svc], m, EMPTY_CLIENT);
      var failed := s.failed;
      if !fromChain && ClientFailed(status) {
        failed := failed + 1;
      }
      clients := clients[svc := Written(clients[svc], m, ClientMinute(s.total + 1, failed))];
    }

    /** Sums one pool's live slots. */
    method SumPool(k: PoolKey, now: int) returns (collapse: int, totals: map<string, OpCount>,
          poolMethods: map<string, MethodCount>)
      requires Valid() && k in pools
      ensures collapse == WindowSum(pools[k], now / 60 - SLOTS + 1, Collapses())
      ensures Totals(totals, pools[k], now / 60 - SLOTS + 1) && IsPoolOf(poolMethods, totals)
    {
      collapse, totals, poolMethods := SumSlots(pools[k], now / 60 - SLOTS + 1);
    }

    /** The share of a service's answers in its live slots that failed, and how many there were. */
    method ClientShare(svc: string, now: int) returns (share: real, requests: int)
      requires Valid()
      ensures if svc !in clients then share == 0.0 && requests == 0
              else
                && requests == WindowSum(clients[svc], now / 60 - SLOTS + 1, ClientTotals())
                && IsShare(share, WindowSum(clients[svc], now / 60 - SLOTS + 1, ClientFailures()), requests)
    {
      if svc !in clients {
        return 0.0, 0;
      }
      var failed;
      requests, failed := SumClients(clients[svc], now / 60 - SLOTS + 1);
      share := if requests == 0 then 0.0 else failed as real / requests as real;
    }
  }

  /** `share` is the part over the whole, 0 when there is nothing. */
  predicate IsShare(share: real, part: int, whole: int) {
    share == if whole == 0 then 0.0 else part as real / whole as real
  }

  method SumClients(ring: seq<Slot<ClientMinute>>, oldest: int) returns (requests: int, failed: int)
    ensures requests == WindowSum(ring, oldest, ClientTotals())
    ensures failed == WindowSum(ring, oldest, ClientFailures())
  {
    requests, failed := 0, 0;
    for i := 0 to |ring|
      invariant requests == WindowSum(ring[..i], oldest, ClientTotals())
      invariant failed == WindowSum(ring[..i], oldest, ClientFailures())
    {
      assert ring[..i + 1][..i] == ring[..i];
      if ring[i].minute >= oldest {
        requests := requests + ring[i].body.total;
        failed := failed + ring[i].body.failed;
      }
    }
    assert ring[..|ring|] == ring;
  }
}
