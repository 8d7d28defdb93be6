/**
 The domain circuit breaker (circuitbreaker/breaker.go): a failure-rate gate with
 hysteresis, escalation across episodes, and a merge with the view shared through
 Redis. The functions say what each operation does to the breaker's three maps;
 the class in BreakerStore is proved to do exactly that.
 */
module BreakerModel {
  import opened Prelude

  /** One domain within one service; the source nests the two maps. */
  datatype Host = Host(service: string, domain: string)

  datatype Broken = Broken(expiry: int, hits: int, reason: string)

  datatype Window = Window(start: int, failures: nat, successes: nat, lastEpisode: Option<int>, lastHits: nat)

  datatype Config = Config(failureWindow: int, minFailures: int, threshold: real, margin: real, memory: int, cacheTTL: int)

  /** A Redis hash value that decodes, or one that does not. */
  datatype Raw = Malformed | Decoded(state: Broken)

  datatype State = State(broken: map<Host, Broken>, locally: map<Host, int>, stats: map<Host, Window>)

  const EMPTY := State(map[], map[], map[])

  const MINUTE := 60_000_000_000
  const MIN_TTL := MINUTE
  const MAX_TTL := 30 * MINUTE

  function Min(a: int, b: int): (m: int)
    ensures m <= a && m <= b && (m == a || m == b)
  {
    if a < b then a else b
  }

  function Max(a: int, b: int): (m: int)
    ensures m >= a && m >= b && (m == a || m == b)
  {
    if a < b then b else a
  }

  function Pow2(n: nat): nat {
    if n == 0 then 1 else 2 * Pow2(n - 1)
  }

  /** The shift stops at five doublings. */
  function EscalateTTL(hits: int): int {
    Min(MIN_TTL * Pow2(Min(Max(hits, 0), 5)), MAX_TTL)
  }

  /** windowLocked: a window older than failureWindow starts again, keeping the episode memory. */
  function Rolled(cfg: Config, w: Option<Window>, now: int): Window {
    if w.None? then Window(now, 0, 0, None, 0)
    else if now - w.value.start > cfg.failureWindow then w.value.(start := now, failures := 0, successes := 0)
    else w.value
  }

  predicate RecentlyBroken(cfg: Config, w: Window, now: int) {
    w.lastEpisode.Some? && now - w.lastEpisode.value <= cfg.memory
  }

  /** Both halves of the gate: enough failures, and a high enough share of the outcomes. */
  predicate Meets(cfg: Config, failures: nat, total: nat, threshold: real)
    requires total > 0
  {
    failures >= cfg.minFailures && failures as real / total as real >= threshold
  }

  /** shouldBreak: the window after counting the failure, and the hit count if the gate opens. */
  function Gate(cfg: Config, before: Option<Window>, now: int): (Window, Option<nat>) {
    var rolled := Rolled(cfg, before, now);
    var w := rolled.(failures := rolled.failures + 1);
    var total := w.failures + w.successes;
    var recent := RecentlyBroken(cfg, w, now);
    var threshold := if recent then cfg.threshold + cfg.margin else cfg.threshold;
    if !Meets(cfg, w.failures, total, threshold) then (w, None)
    else
      var hits := if recent then w.lastHits + 1 else 1;
      (Window(now, 0, 0, Some(now), hits), Some(hits))
  }

  /** A break is read as standing up to its expiry, the moment itself included. */
  predicate ReadsBroken(s: State, h: Host, now: int) {
    h in s.broken && now <= s.broken[h].expiry
  }

  /** A mark on a domain whose break is still in effect belongs to that episode. */
  predicate InEffect(s: State, h: Host, now: int) {
    h in s.broken && s.broken[h].expiry > now
  }

  function DoSuccess(cfg: Config, s: State, h: Host, now: int): State {
    if h.domain == "" then s
    else
      var w := Rolled(cfg, Lookup(s.stats, h), now);
      s.(stats := s.stats[h := w.(successes := w.successes + 1)])
  }

  function DoMark(cfg: Config, s: State, h: Host, reason: string, now: int): (State, bool) {
    if InEffect(s, h, now) then (s, false)
    else
      var (w, hits) := Gate(cfg, Lookup(s.stats, h), now);
      var counted := s.(stats := s.stats[h := w]);
      if hits.None? then (counted, false)
      else
        var b := Broken(now + EscalateTTL(hits.value - 1), hits.value, reason);
        (counted.(broken := s.broken[h := b], locally := s.locally[h := now]), true)
  }

  function Without<T>(m: map<Host, T>, service: string): map<Host, T> {
    map h | h in m && h.service != service :: m[h]
  }

  function DoClear(s: State, service: string): State {
    State(Without(s.broken, service), Without(s.locally, service), Without(s.stats, service))
  }

  /** Absent from Redis, and this replica's own break is not too fresh to have landed. */
  predicate Dropped(cfg: Config, s: State, service: string, entries: map<string, Raw>, now: int, h: Host) {
    && h.service == service && h in s.broken && h.domain !in entries
    && !(h in s.locally && now - s.locally[h] < cfg.cacheTTL)
  }

  /** The entry Redis offers for h: decodable and not expired. */
  function Offered(service: string, entries: map<string, Raw>, now: int, h: Host): Option<Broken> {
    if h.service == service && h.domain in entries && entries[h.domain].Decoded? && now <= entries[h.domain].state.expiry
    then Some(entries[h.domain].state) else None
  }

  /** The later expiry of the two wins; the local one on a tie. */
  function Later(own: Option<Broken>, offered: Option<Broken>): Option<Broken> {
    if offered.Some? && (own.None? || offered.value.expiry > own.value.expiry) then offered else own
  }

  function MergedAt(cfg: Config, s: State, service: string, entries: map<string, Raw>, now: int,
        h: Host): Option<Broken> {
    Later(if Dropped(cfg, s, service, entries, now, h) then None else Lookup(s.broken, h), Offered(service, entries, now, h))
  }

  function DoMerge(cfg: Config, s: State, service: string, entries: map<string, Raw>, now: int): State {
    var hosts := s.broken.Keys + set d | d in entries :: Host(service, d);
    State(map h | h in hosts && MergedAt(cfg, s, service, entries, now, h).Some? :: MergedAt(cfg, s, service, entries, now, h).value,
          map h | h in s.locally && !Dropped(cfg, s, service, entries, now, h) :: s.locally[h],
          s.stats)
  }

  // The merge, looked up host by host.

  lemma MergeLookup(cfg: Config, s: State, service: string, entries: map<string, Raw>, now: int)
    ensures forall h :: Lookup(DoMerge(cfg, s, service, entries, now).broken, h) == MergedAt(cfg, s, service, entries, now, h)
    ensures forall h :: Lookup(DoMerge(cfg, s, service, entries, now).locally, h) ==
                        if Dropped(cfg, s, service, entries, now, h) then None else Lookup(s.locally, h)
  {
    var hosts := s.broken.Keys + set d | d in entries :: Host(service, d);
    forall h
      ensures MergedAt(cfg, s, service, entries, now, h).Some? ==> h in hosts
    {
      if Offered(service, entries, now, h).Some? {
        assert h == Host(service, h.domain);
      }
    }
  }

  lemma SameMap<T>(a: map<Host, T>, b: map<Host, T>)
    requires forall h :: Lookup(a, h) == Lookup(b, h)
    ensures a == b
  {
    forall h | h in a || h in b
      ensures h in a && h in b && a[h] == b[h]
    {
      assert Lookup(a, h) == Lookup(b, h);
    }
  }
}

/** The breaker object: its maps change in place, each method as the model says. */
module BreakerStore {
  import opened Prelude
  import opened BreakerModel

  class Breaker {
    const cfg: Config
    var broken: map<Host, Broken>
    var locally: map<Host, int>
    var stats: map<Host, Window>

    function View(): State
      reads this
    {
      State(broken, locally, stats)
    }

    constructor (cfg: Config)
      ensures this.cfg == cfg && View() == EMPTY
    {
      this.cfg := cfg;
      broken, locally, stats := map[], map[], map[];
    }

    /** Expired entries read as not broken. */
    method IsBroken(h: Host, now: int) returns (yes: bool)
      ensures yes <==> ReadsBroken(View(), h, now)
    {
      yes := h in broken && !(now > broken[h].expiry);
    }

    method WindowLocked(h: Host, now: int) returns (w: Window)
      modifies `stats
      ensures w == Rolled(cfg, old(Lookup(stats, h)), now)
      ensures stats == old(stats)[h := w]
    {
      if h !in stats {
        w := Window(now, 0, 0, None, 0);
      } else {
        w := stats[h];
        if now - w.start > cfg.failureWindow {
          w := w.(start := now);
          w := w.(failures := 0, successes := 0);
        }
      }
      stats := stats[h := w];
    }

    method RecordSuccess(h: Host, now: int)
      modifies `stats
      ensures View() == DoSuccess(cfg, old(View()), h, now)
    {
      if h.domain == "" {
        return;
      }
      var w := WindowLocked(h, now);
      stats := stats[h := w.(successes := w.successes + 1)];
    }

    method ShouldBreak(h: Host, now: int) returns (hits: Option<nat>)
      modifies `stats
      ensures var g := Gate(cfg, old(Lookup(stats, h)), now);
              stats == old(stats)[h := g.0] && hits == g.1
    {
      var w := WindowLocked(h, now);
      w := w.(failures := w.failures + 1);
      stats := stats[h := w];
      var total := w.failures + w.successes;
      if w.failures < cfg.minFailures || total == 0 {
        return None;
      }
      var recentlyBroken := w.lastEpisode.Some? && now - w.lastEpisode.value <= cfg.memory;
      var threshold := cfg.threshold;
      if recentlyBroken {
        threshold := threshold + cfg.margin;
      }
      if w.failures as real / total as real < threshold {
        return None;
      }
      var hitCount := 1;
      if recentlyBroken {
        hitCount := w.lastHits + 1;
      }
      w := w.(lastEpisode := Some(now), lastHits := hitCount);
      w := w.(start := now, failures := 0, successes := 0);
      stats := stats[h := w];
      hits := Some(hitCount);
    }

    method MarkBroken(h: Host, reason: string, now: int) returns (broke: bool)
      modifies this
      ensures (View(), broke) == DoMark(cfg, old(View()), h, reason, now)
    {
      if h in broken && broken[h].expiry > now {
        return false;
      }
      var hits := ShouldBreak(h, now);
      if hits.None? {
        return false;
      }
      var ttl := EscalateTTL(hits.value - 1);
      broken := broken[h := Broken(now + ttl, hits.value, reason)];
      locally := locally[h := now];
      broke := true;
    }

    /** Every trace of the service goes, and the count is how many domains were held. */
    method Clear(service: string) returns (count: nat)
      modifies this
      ensures View() == DoClear(old(View()), service)
      ensures count == |old(set h | h in broken && h.service == service)|
    {
      count := |set h | h in broken && h.service == service|;
      broken := map h | h in broken && h.service != service :: broken[h];
      locally := map h | h in locally && h.service != service :: locally[h];
      stats := map h | h in stats && h.service != service :: stats[h];
    }

    method MergeRedisEntries(service: string, entries: map<string, Raw>, now: int)
      modifies this
      ensures View() == DoMerge(cfg, old(View()), service, entries, now)
    {
      var cut, kept := DropUnlisted(service, entries, now);
      var merged := AddOffered(cut, service, entries, now);
      ghost var want := DoMerge(cfg, View(), service, entries, now);
      MergeLookup(cfg, View(), service, entries, now);
      SameMap(merged, want.broken);
      SameMap(kept, want.locally);
      broken, locally := merged, kept;
    }

    /** First pass: the domains Redis no longer lists go, unless this replica's own write may not have landed. */
    method DropUnlisted(service: string, entries: map<string, Raw>, now: int)
      returns (cut: map<Host, Broken>, kept: map<Host, int>)
      ensures forall h :: Lookup(cut, h) == if Dropped(cfg, View(), service, entries, now, h) then None else Lookup(broken, h)
      ensures forall h :: Lookup(kept, h) == if Dropped(cfg, View(), service, entries, now, h) then None else Lookup(locally, h)
    {
      cut, kept := broken, locally;
      ghost var s := View();
      var todo := set h | h in broken && h.service == service;
      while todo != {}
        invariant todo <= broken.Keys && forall h :: h in todo ==> h.service == service
        invariant forall h :: Lookup(cut, h) ==
                              if h !in todo && Dropped(cfg, s, service, entries, now, h) then None else Lookup(broken, h)
        invariant forall h :: Lookup(kept, h) ==
                              if h !in todo && Dropped(cfg, s, service, entries, now, h) then None else Lookup(locally, h)
        decreases |todo|
      {
        var h :| h in todo;
        todo := todo - {h};
        assert Lookup(kept, h) == Lookup(locally, h);
        if h.domain !in entries && !(h in kept && now - kept[h] < cfg.cacheTTL) {
          cut, kept := cut - {h}, kept - {h};
        }
      }
    }

    /** Second pass: a decodable, unexpired entry with the later expiry wins. */
    static method AddOffered(cut: map<Host, Broken>, service: string, entries: map<string, Raw>, now: int)
      returns (merged: map<Host, Broken>)
      ensures forall h :: Lookup(merged, h) == Later(Lookup(cut, h), Offered(service, entries, now, h))
    {
      merged := cut;
      var todo := entries.Keys;
      while todo != {}
        invariant todo <= entries.Keys
        invariant forall h :: Lookup(merged, h) ==
                              if h.domain in todo then Lookup(cut, h) else Later(Lookup(cut, h), Offered(service, entries, now, h))
        decreases |todo|
      {
        var domain :| domain in todo;
        todo := todo - {domain};
        var h, raw := Host(service, domain), entries[domain];
        assert Lookup(merged, h) == Lookup(cut, h);
        if raw.Decoded? && !(now > raw.state.expiry) {
          if h !in merged || raw.state.expiry > merged[h].expiry {
            merged := merged[h := raw.state];
          }
        }
      }
    }
  }
}
