/**
 The auto-drain evaluation in place (autodrain/engine.go, reconcile, find, decide, liveAuto,
 liveAutoFleet): the engine's maps and the drain store it reads and writes, proved to do what
 AutoDrainDecisions says of their values.
 */
module AutoDrainDecider {
  import opened Prelude
  import opened DrainKeys
  import opened DrainOrder
  import opened DrainMemory
  import opened AutoDrainDecisions

  // ---------------------------------------------------------------- listings

  lemma Twice(out: seq<Entry>, i: nat, j: nat)
    requires i < j < |out| && out[i] == out[j]
    ensures multiset(out)[out[i]] >= 2
  {
    assert out == out[..i + 1] + out[i + 1..];
    assert out[i] in out[..i + 1] && out[j] in out[i + 1..];
  }

  /** A service's listing is its live drains, each once. */
  lemma ListedOnce(out: seq<Entry>, entries: map<Key, Entry>, service: string, now: int)
    requires Lists(out, entries, service, now)
    ensures forall e :: e in out <==> Live(entries, e, service, now)
    ensures forall i, j :: 0 <= i < j < |out| ==> out[i].key != out[j].key
  {
    assert forall e :: e in out <==> e in multiset(out);
    forall i, j | 0 <= i < j < |out|
      ensures out[i].key != out[j].key
    {
      assert out[i] in out && out[j] in out;
      if out[i] == out[j] {
        Twice(out, i, j);
      }
    }
  }

  /** The first entry of the listing that covers the candidate is the one find returns. */
  method FirstCovering(active: seq<Entry>, k: Key) returns (r: Option<Entry>)
    ensures r.None? ==> forall i :: 0 <= i < |active| ==> !Matches(active[i], k)
    ensures r.Some? ==> exists i :: 0 <= i < |active| && active[i] == r.value && Matches(r.value, k) && forall j :: 0 <= j < i ==> !Matches(active[j], k)
  {
    for i := 0 to |active|
      invariant forall j :: 0 <= j < i ==> !Matches(active[j], k)
    {
      if Matches(active[i], k) {
        return Some(active[i]);
      }
    }
    r := None;
  }

  /** An entry of the candidate's service covers it. */
  predicate Matches(e: Entry, k: Key) {
    Lower(e.key.operator) == Lower(k.operator) && (e.key.rpc == k.rpc || e.key.rpc == "")
  }

  lemma FirstIsFound(active: seq<Entry>, drains: Drains, k: Key, now: int, r: Option<Entry>)
    requires Keyed(drains) && Sorted(active) && Lists(active, drains, k.service, now)
    requires r.None? ==> forall i :: 0 <= i < |active| ==> !Matches(active[i], k)
    requires r.Some? ==> exists i :: 0 <= i < |active| && active[i] == r.value && Matches(r.value, k) && forall j :: 0 <= j < i ==> !Matches(active[j], k)
    ensures r == Find(drains, k, now)
  {
    ListedOnce(active, drains, k.service, now);
    FindsIffCovered(drains, k, now);
    if r.None? {
      forall key
        ensures !(IsLive(drains, key, now) && Covers(key, k))
      {
        assert IsLive(drains, key, now) && Covers(key, k) ==> drains[key] in active && Matches(drains[key], k);
      }
    } else {
      var i :| 0 <= i < |active| && active[i] == r.value && Matches(r.value, k) && forall j :: 0 <= j < i ==> !Matches(active[j], k);
      assert r.value in active;
      forall key | IsLive(drains, key, now) && Covers(key, k)
        ensures EntryLeq(r.value, drains[key])
      {
        assert drains[key] in active && Matches(drains[key], k);
        EntryTotal(r.value, r.value);
      }
      assert IsFirst(drains, k, now, r.value);
      FirstUnique(drains, k, now, r.value, Find(drains, k, now).value);
    }
  }

  /** The auto drains of a listing, of one RPC type or of all. */
  function Wanted(e: Entry, rpc: Option<string>): bool {
    IsAuto(e) && (rpc.None? || e.key.rpc == rpc.value)
  }

  function KeysOf(active: seq<Entry>, rpc: Option<string>): set<Key> {
    set i | 0 <= i < |active| && Wanted(active[i], rpc) :: active[i].key
  }

  method CountAuto(active: seq<Entry>, rpc: Option<string>) returns (n: int)
    requires forall i, j :: 0 <= i < j < |active| ==> active[i].key != active[j].key
    ensures n == |KeysOf(active, rpc)|
  {
    n := 0;
    for i := 0 to |active|
      invariant n == |KeysOf(active[..i], rpc)|
    {
      ghost var before, after := KeysOf(active[..i], rpc), KeysOf(active[..i + 1], rpc);
      assert active[..i + 1] == active[..i] + [active[i]];
      if Wanted(active[i], rpc) {
        KeysMore(active, i, rpc);
        n := n + 1;
      } else {
        KeysMore(active, i, rpc);
      }
    }
    assert active[..|active|] == active;
  }

  lemma KeysMore(active: seq<Entry>, i: nat, rpc: Option<string>)
    requires i < |active| && forall i, j :: 0 <= i < j < |active| ==> active[i].key != active[j].key
    ensures KeysOf(active[..i + 1], rpc) == KeysOf(active[..i], rpc) + if Wanted(active[i], rpc) then {active[i].key} else {}
    ensures active[i].key !in KeysOf(active[..i], rpc)
  {
    var a, b := active[..i], active[..i + 1];
    forall key | key in KeysOf(b, rpc)
      ensures key in KeysOf(a, rpc) + if Wanted(active[i], rpc) then {active[i].key} else {}
    {
      var j :| 0 <= j < |b| && Wanted(b[j], rpc) && b[j].key == key;
      assert j < i ==> a[j] == b[j];
    }
    forall key | key in KeysOf(a, rpc)
      ensures key in KeysOf(b, rpc)
    {
      var j :| 0 <= j < |a| && Wanted(a[j], rpc) && a[j].key == key;
      assert b[j] == a[j];
    }
    assert Wanted(active[i], rpc) ==> b[i].key in KeysOf(b, rpc);
  }

  lemma KeysAreAutos(active: seq<Entry>, drains: Drains, service: string, rpc: Option<string>, now: int)
    requires Keyed(drains) && Lists(active, drains, service, now)
    ensures forall key :: key in KeysOf(active, rpc) <==>
                          key in LiveAutos(drains, now) && key.service == service && (rpc.None? || key.rpc == rpc.value)
  {
    ListedOnce(active, drains, service, now);
    forall key
      ensures key in KeysOf(active, rpc) <==> key in LiveAutos(drains, now) && key.service == service && (rpc.None? || key.rpc == rpc.value)
    {
      if key in LiveAutos(drains, now) && key.service == service && (rpc.None? || key.rpc == rpc.value) {
        assert drains[key] in active;
        var i :| 0 <= i < |active| && active[i] == drains[key];
        assert Wanted(active[i], rpc);
      }
      if key in KeysOf(active, rpc) {
        var i :| 0 <= i < |active| && Wanted(active[i], rpc) && active[i].key == key;
        assert active[i] in active;
      }
    }
  }

  // --------------------------------------------------------------- the engine

  /** The engine's evaluation state, and the drain store it acts on. */
  class Decider {
    const drains: MemoryStore
    var pooled: set<string>
    var live: map<Key, int>
    var suppressed: map<Key, int>
    var lastBySvc: map<string, int>
    var recent: seq<int>

    function View(): Memory
      reads this
    {
      Memory(live, suppressed, lastBySvc, recent)
    }

    constructor (drains: MemoryStore)
      ensures this.drains == drains && pooled == {} && View() == Memory(map[], map[], map[], [])
    {
      this.drains := drains;
      pooled, live, suppressed, lastBySvc, recent := {}, map[], map[], map[], [];
    }

    /** The live drain covering `k`: the first of the service's listing. */
    method Find(k: Key, now: int) returns (r: Option<Entry>)
      requires drains.Valid()
      ensures r == AutoDrainDecisions.Find(drains.entries, k, now)
    {
      var active := drains.Active(k.service, now);
      r := FirstCovering(active, k);
      FirstIsFound(active, drains.entries, k, now, r);
    }

    method LiveAuto(service: string, rpc: string, now: int) returns (n: int)
      requires drains.Valid()
      ensures n == |PoolAutos(drains.entries, service, rpc, now)|
    {
      var active := drains.Active(service, now);
      ListedOnce(active, drains.entries, service, now);
      n := CountAuto(active, Some(rpc));
      KeysAreAutos(active, drains.entries, service, Some(rpc), now);
      assert KeysOf(active, Some(rpc)) == PoolAutos(drains.entries, service, rpc, now);
    }

    /** Goes through the services with a pool only. */
    method LiveAutoFleet(now: int) returns (n: int)
      requires drains.Valid()
      ensures n == |KnownAutos(drains.entries, pooled, now)|
    {
      n := 0;
      var todo := pooled;
      assert KnownAutos(drains.entries, pooled - todo, now) == {};
      while todo != {}
        invariant todo <= pooled
        invariant n == |KnownAutos(drains.entries, pooled - todo, now)|
        decreases |todo|
      {
        var service :| service in todo;
        var active := drains.Active(service, now);
        ListedOnce(active, drains.entries, service, now);
        var m := CountAuto(active, None);
        KeysAreAutos(active, drains.entries, service, None, now);
        OneServiceMore(drains.entries, pooled, todo, service, now, KeysOf(active, None));
        todo := todo - {service};
        n := n + m;
      }
      assert pooled - todo == pooled;
    }

    /** Forgets what is over, notices early releases, and drops what is old. */
    method Reconcile(now: int)
      requires drains.Valid()
      modifies this
      ensures View() == Reconciled(old(View()), drains.entries, now) && pooled == old(pooled)
    {
      var kept, noticed := Review(now);
      live := kept;
      suppressed := DropOver(suppressed, noticed, now);
      recent := DropOld(recent, now - HOUR);
    }

    /** What becomes of each drain the engine has set. */
    method Review(now: int) returns (kept: map<Key, int>, noticed: set<Key>)
      requires drains.Valid()
      ensures kept == LiveAfter(live, drains.entries, now) && noticed == Noticed(live, drains.entries, now)
    {
      kept, noticed := live, {};
      var todo := live.Keys;
      while todo != {}
        invariant todo <= live.Keys
        invariant kept == map k | k in live && (k in todo || StillOurs(drains.entries, k, live[k], now)) :: live[k]
        invariant noticed == set k | k in live && k !in todo && ReleasedEarly(drains.entries, k, live[k], now)
        decreases |todo|
      {
        var k :| k in todo;
        todo := todo - {k};
        if live[k] <= now {
          kept := kept - {k};
        } else {
          var entry := Find(k, now);
          if entry.None? {
            noticed := noticed + {k};
            kept := kept - {k};
          } else if !IsAuto(entry.value) {
            kept := kept - {k};
          }
        }
      }
    }

    /** The verdict on one candidate; Drained when nothing stands against a drain. */
    method Judge(k: Key, now: int, act: bool, ev: Evidence) returns (verdict: Outcome)
      requires drains.Valid()
      ensures verdict == Verdict(View(), drains.entries, pooled, k, now, ev, act)
    {
      var entry := Find(k, now);
      if entry.Some? {
        return if IsAuto(entry.value) then Silent else ManualDrain;
      }
      var gate := Gate(ev);
      if gate.Some? {
        return gate.value;
      }
      if k in suppressed && now < suppressed[k] {
        return Suppressed;
      }
      var inPool := LiveAuto(k.service, k.rpc, now);
      var inFleet := LiveAutoFleet(now);
      if inPool >= MAX_LIVE_POOL || inFleet >= MAX_LIVE_FLEET {
        return Capped;
      }
      if (k.service in lastBySvc && now - lastBySvc[k.service] < SERVICE_GAP) || |recent| >= MAX_PER_HOUR {
        return RateLimited;
      }
      if !act {
        return Shadow;
      }
      verdict := Drained;
    }

    /** Decides on one candidate and, when nothing stands against it, sets the drain. */
    method Decide(k: Key, now: int, act: bool, ev: Evidence, maxDrain: int, note: string,
          write: Write) returns (outcome: Outcome)
      requires drains.Valid()
      modifies this, drains
      ensures drains.Valid() && pooled == old(pooled)
      ensures var verdict := Verdict(old(View()), old(drains.entries), pooled, k, now, ev, act);
              var e := NewEntry(k, now, maxDrain, note);
              if verdict != Drained then outcome == verdict && View() == old(View()) && drains.entries == old(drains.entries)
              else
                && outcome == (if write == Done then Drained else Silent)
                && View() == Remembered(old(View()), k, now, e.until, write)
                && drains.entries == DrainsAfter(old(drains.entries), e, write)
    {
      outcome := Judge(k, now, act, ev);
      if outcome != Drained {
        return;
      }
      var until := now + DrainLength(maxDrain);
      SetDrain(Entry(k, until, REASON_PREFIX + note), now, write);
      if write != Done {
        return Silent;
      }
      live := live[k := until];
      lastBySvc := lastBySvc[k.service := now];
      recent := recent + [now];
      outcome := Drained;
    }

    /** The store's Set, which may fail with or without installing the drain on this pod. */
    method SetDrain(e: Entry, now: int, write: Write)
      requires drains.Valid() && e.until > now
      modifies drains
      ensures drains.Valid() && drains.entries == DrainsAfter(old(drains.entries), e.(key := Normalized(e.key)), write)
    {
      if write != FailedAbsent {
        drains.Set(e, now);
        ghost var kept := e.(key := Normalized(e.key));
        assert drains.CellAt(kept.key).entry == Some(kept);
        forall k | k != kept.key
          ensures Lookup(drains.entries, k) == Lookup(old(drains.entries), k)
        {
          assert drains.CellAt(k) == old(drains.CellAt(k));
        }
        SameEntries(old(drains.entries), drains.entries, kept);
      }
    }
  }

  lemma SameEntries(before: Drains, after: Drains, e: Entry)
    requires Lookup(after, e.key) == Some(e) && forall k :: k != e.key ==> Lookup(after, k) == Lookup(before, k)
    ensures after == before[e.key := e]
  {
    forall k
      ensures k in after <==> k in before[e.key := e]
      ensures k in after ==> after[k] == before[e.key := e][k]
    {
      assert k != e.key ==> Lookup(after, k) == Lookup(before, k);
    }
  }

  lemma OneServiceMore(drains: Drains, pooled: set<string>, todo: set<string>, service: string, now: int,
        found: set<Key>)
    requires service in todo && todo <= pooled
    requires forall key :: key in found <==> key in LiveAutos(drains, now) && key.service == service
    ensures |KnownAutos(drains, pooled - (todo - {service}), now)| == |KnownAutos(drains, pooled - todo, now)| + |found|
  {
    var before := KnownAutos(drains, pooled - todo, now);
    assert before !! found;
    assert KnownAutos(drains, pooled - (todo - {service}), now) == before + found;
  }

  /** Suppressions already begun or begun now, without those that are over. */
  method DropOver(suppressed: map<Key, int>, noticed: set<Key>, now: int) returns (left: map<Key, int>)
    ensures left == Suppressions(suppressed, noticed, now)
  {
    var all := map k | k in suppressed.Keys + noticed :: if k in noticed then now + SUPPRESS_FOR else suppressed[k];
    left := all;
    var todo := all.Keys;
    while todo != {}
      invariant todo <= all.Keys
      invariant left == map k | k in all && (k in todo || now < all[k]) :: all[k]
      decreases |todo|
    {
      var k :| k in todo;
      todo := todo - {k};
      if all[k] <= now {
        left := left - {k};
      }
    }
  }

  method DropOld(recent: seq<int>, cut: int) returns (left: seq<int>)
    ensures left == Since(recent, cut)
  {
    left := [];
    for i := 0 to |recent|
      invariant left == Since(recent[..i], cut)
    {
      assert recent[..i + 1][..i] == recent[..i];
      if recent[i] > cut {
        left := left + [recent[i]];
      }
    }
    assert recent[..|recent|] == recent;
  }
}
