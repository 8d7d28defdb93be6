/**
 The auto-drain decisions on values (autodrain/engine.go, reconcile, find, decide,
 liveAuto, liveAutoFleet): what one evaluation does to the engine's own memory and to the
 drain store. Times are in seconds.
 */
module AutoDrainDecisions {
  import opened Prelude
  import opened DrainKeys
  import opened DrainOrder

  const REASON_PREFIX := "auto:"
  const HOUR := 3600
  const DRAIN_FOR := 2 * HOUR
  const SERVICE_GAP := HOUR / 2
  const SUPPRESS_FOR := 6 * HOUR
  const MAX_PER_HOUR := 3
  const MAX_LIVE_POOL := 1
  const MAX_LIVE_FLEET := 5
  const MIN_CLIENT_REQUESTS := 50
  const MIN_CLIENT_FAILURE := 0.05
  const SEVERE_MIN_ATTEMPTS := 200
  const SEVERE_MAX_SUCCESS := 0.60
  const MAX_SUCCESS := 0.02

  type Drains = map<Key, Entry>

  /** The engine's own drains carry its prefix. */
  predicate IsAuto(e: Entry) {
    REASON_PREFIX <= e.reason
  }

  predicate IsLive(drains: Drains, key: Key, now: int) {
    key in drains && drains[key].until > now
  }

  /** A drain's key covers a candidate: its own scope, or every RPC type of the operator. */
  predicate Covers(key: Key, k: Key) {
    key.service == k.service && Lower(key.operator) == Lower(k.operator) && (key.rpc == k.rpc || key.rpc == "")
  }

  // -------------------------------------------------------------------- find

  /** The first live drain covering `k` in the store's listing order. */
  ghost predicate IsFirst(drains: Drains, k: Key, now: int, e: Entry) {
    && IsLive(drains, e.key, now) && drains[e.key] == e && Covers(e.key, k)
    && forall key :: IsLive(drains, key, now) && Covers(key, k) ==> EntryLeq(e, drains[key])
  }

  ghost predicate AnyCovers(drains: Drains, k: Key, now: int) {
    exists key :: IsLive(drains, key, now) && Covers(key, k)
  }

  ghost predicate Keyed(drains: Drains) {
    forall key :: key in drains ==> drains[key].key == key
  }

  ghost function Find(drains: Drains, k: Key, now: int): Option<Entry> {
    if exists e :: IsFirst(drains, k, now, e) then
      var e :| IsFirst(drains, k, now, e);
      Some(e)
    else None
  }

  lemma FirstUnique(drains: Drains, k: Key, now: int, a: Entry, b: Entry)
    requires IsFirst(drains, k, now, a) && IsFirst(drains, k, now, b)
    ensures a == b
  {
    assert EntryLeq(a, drains[b.key]) && EntryLeq(b, drains[a.key]);
    LexTotal(a.key.operator, b.key.operator);
    LexTotal(a.key.rpc, b.key.rpc);
    assert a.key == b.key;
  }

  lemma {:induction false} LeastKey(drains: Drains, keys: set<Key>) returns (least: Key)
    requires keys != {} && keys <= drains.Keys
    ensures least in keys && forall key :: key in keys ==> EntryLeq(drains[least], drains[key])
    decreases |keys|
  {
    least :| least in keys;
    EntryTotal(drains[least], drains[least]);
    if keys != {least} {
      var other := LeastKey(drains, keys - {least});
      EntryTotal(drains[least], drains[other]);
      if !EntryLeq(drains[least], drains[other]) {
        least := other;
      } else {
        forall key | key in keys - {least}
          ensures EntryLeq(drains[least], drains[key])
        {
          EntryTransitive(drains[least], drains[other], drains[key]);
        }
      }
    }
  }

  /** Something is found exactly when a live drain covers the candidate. */
  lemma FindsIffCovered(drains: Drains, k: Key, now: int)
    requires Keyed(drains)
    ensures Find(drains, k, now).Some? <==> AnyCovers(drains, k, now)
    ensures Find(drains, k, now).Some? ==> IsFirst(drains, k, now, Find(drains, k, now).value)
  {
    if AnyCovers(drains, k, now) {
      var covering := set key | key in drains && IsLive(drains, key, now) && Covers(key, k);
      var some :| IsLive(drains, some, now) && Covers(some, k);
      assert some in covering;
      var least := LeastKey(drains, covering);
      assert IsFirst(drains, k, now, drains[least]);
    }
  }

  // ------------------------------------------------------------------ counts

  function LiveAutos(drains: Drains, now: int): set<Key> {
    set key | key in drains && drains[key].until > now && IsAuto(drains[key])
  }

  function PoolAutos(drains: Drains, service: string, rpc: string, now: int): set<Key> {
    set key | key in drains && drains[key].until > now && IsAuto(drains[key]) && key.service == service && key.rpc == rpc
  }

  /** The live auto drains on services the engine has a pool for. */
  function KnownAutos(drains: Drains, pooled: set<string>, now: int): set<Key> {
    set key | key in drains && drains[key].until > now && IsAuto(drains[key]) && key.service in pooled
  }

  // ------------------------------------------------------------------ memory

  /** What the engine remembers between evaluations. */
  datatype Memory = Memory(live: map<Key, int>, suppressed: map<Key, int>, lastBySvc: map<string, int>, recent: seq<int>)

  /** An auto drain is kept in mind while it is due and still the engine's own. */
  ghost predicate StillOurs(drains: Drains, k: Key, until: int, now: int) {
    now < until && Find(drains, k, now).Some? && IsAuto(Find(drains, k, now).value)
  }

  /** Gone before its time: a person released it. */
  ghost predicate ReleasedEarly(drains: Drains, k: Key, until: int, now: int) {
    now < until && Find(drains, k, now).None?
  }

  ghost function LiveAfter(live: map<Key, int>, drains: Drains, now: int): map<Key, int> {
    map k | k in live && StillOurs(drains, k, live[k], now) :: live[k]
  }

  ghost function Noticed(live: map<Key, int>, drains: Drains, now: int): set<Key> {
    set k | k in live && ReleasedEarly(drains, k, live[k], now)
  }

  function Suppressions(suppressed: map<Key, int>, noticed: set<Key>, now: int): map<Key, int> {
    map k | k in suppressed.Keys + noticed && (k in noticed || now < suppressed[k]) :: if k in noticed then now + SUPPRESS_FOR else suppressed[k]
  }

  function Since(recent: seq<int>, cut: int): seq<int> {
    if recent == [] then []
    else
      var rest := Since(recent[..|recent| - 1], cut);
      if recent[|recent| - 1] > cut then rest + [recent[|recent| - 1]] else rest
  }

  ghost function Reconciled(m: Memory, drains: Drains, now: int): Memory {
    Memory(LiveAfter(m.live, drains, now), Suppressions(m.suppressed, Noticed(m.live, drains, now), now), m.lastBySvc, Since(m.recent, now - HOUR))
  }

  // ------------------------------------------------------------------ decide

  /** The evidence a decision reads. */
  datatype Evidence = Evidence(
    clientRequests: int, clientFailure: real, answerHarm: real,
    firstAttempts: int, firstSuccess: real, attempts: int, successRate: real,
    poolWide: bool, vouched: bool)

  datatype Outcome =
    | Silent | ManualDrain | NoClientEvidence | BelowClient | PoolWide | NoVouched
    | Suppressed | Capped | RateLimited | Shadow | Drained

  predicate Severe(ev: Evidence) {
    || (ev.firstAttempts >= SEVERE_MIN_ATTEMPTS && ev.firstSuccess <= SEVERE_MAX_SUCCESS)
    || (ev.attempts >= SEVERE_MIN_ATTEMPTS && ev.successRate <= MAX_SUCCESS)
  }

  /** What the evidence alone decides, or nothing. */
  function Gate(ev: Evidence): Option<Outcome> {
    if ev.clientRequests < MIN_CLIENT_REQUESTS then Some(NoClientEvidence)
    else if ev.clientFailure < MIN_CLIENT_FAILURE && ev.answerHarm < MIN_CLIENT_FAILURE && !Severe(ev) then Some(BelowClient)
    else if ev.poolWide then Some(PoolWide)
    else if !ev.vouched then Some(NoVouched)
    else None
  }

  /** What the engine's own limits decide, or nothing. */
  function Limit(m: Memory, drains: Drains, pooled: set<string>, k: Key, now: int): Option<Outcome> {
    if k in m.suppressed && now < m.suppressed[k] then Some(Suppressed)
    else if |PoolAutos(drains, k.service, k.rpc, now)| >= MAX_LIVE_POOL || |KnownAutos(drains, pooled, now)| >= MAX_LIVE_FLEET then Some(Capped)
    else if (k.service in m.lastBySvc && now - m.lastBySvc[k.service] < SERVICE_GAP) || |m.recent| >= MAX_PER_HOUR then Some(RateLimited)
    else None
  }

  /** The outcome; Drained means that a drain is to be set. */
  ghost function Verdict(m: Memory, drains: Drains, pooled: set<string>, k: Key, now: int, ev: Evidence,
        act: bool): Outcome {
    var found := Find(drains, k, now);
    if found.Some? then if IsAuto(found.value) then Silent else ManualDrain
    else if Gate(ev).Some? then Gate(ev).value
    else if Limit(m, drains, pooled, k, now).Some? then Limit(m, drains, pooled, k, now).value
    else if !act then Shadow
    else Drained
  }

  /** How the store answers a Set: done, failed with the drain installed on this pod, or failed without. */
  datatype Write = Done | FailedInstalled | FailedAbsent

  /** How long a drain lasts under the configured ceiling, zero meaning none. */
  function DrainLength(maxDrain: int): (length: int)
    ensures 0 < length <= DRAIN_FOR && (maxDrain > 0 ==> length <= maxDrain)
    ensures length == DRAIN_FOR || length == maxDrain
  {
    if 0 < maxDrain < DRAIN_FOR then maxDrain else DRAIN_FOR
  }

  /** The entry set, as the store keeps it. */
  function NewEntry(k: Key, now: int, maxDrain: int, note: string): Entry {
    Entry(Normalized(k), now + DrainLength(maxDrain), REASON_PREFIX + note)
  }

  function DrainsAfter(drains: Drains, e: Entry, write: Write): Drains {
    if write == FailedAbsent then drains else drains[e.key := e]
  }

  /** Only a Set that succeeded is remembered. */
  function Remembered(m: Memory, k: Key, now: int, until: int, write: Write): Memory {
    if write != Done then m
    else Memory(m.live[k := until], m.suppressed, m.lastBySvc[k.service := now], m.recent + [now])
  }
}
