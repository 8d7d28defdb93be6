/**
 Method blocks (methodblock/store.go): a host that could not answer a method is
 kept away from that method for a while, and from every method once enough
 supplier-attributed marks are live at the same time.
 */
module MethodBlockModel {
  import opened Prelude

  datatype Host = Host(service: string, name: string)

  datatype Mark = Mark(expiry: int, escalates: bool)

  /** until is the host-level block; None is Go's zero time. */
  datatype HostState = HostState(until: Option<int>, methods: map<string, Mark>)

  const NO_MARKS := HostState(None, map[])

  datatype Settings = Settings(ttl: int, clientTTL: int, escalation: int)

  datatype Block = Block(host: string, meth: string, expiry: int)

  const MAX_METHODS := 128

  function HostAt(hosts: map<Host, HostState>, h: Host): HostState {
    if h in hosts then hosts[h] else NO_MARKS
  }

  predicate HostBlocked(hs: HostState, now: int) {
    hs.until.Some? && now < hs.until.value
  }

  function LiveMarks(methods: map<string, Mark>, now: int): map<string, Mark> {
    map m | m in methods && now < methods[m].expiry :: methods[m]
  }

  /** The methods carrying supplier-attributed evidence. */
  function Evidence(methods: map<string, Mark>): set<string> {
    set m | m in methods && methods[m].escalates
  }

  /** A client-attributed mark may have its own lifetime. */
  function Lifetime(cfg: Settings, escalates: bool): int {
    if !escalates && cfg.clientTTL > 0 then cfg.clientTTL else cfg.ttl
  }

  /** Sticky evidence: a client re-mark does not un-count a live supplier mark. */
  predicate Counts(methods: map<string, Mark>, meth: string, escalates: bool, now: int) {
    escalates || (meth in methods && now < methods[meth].expiry && methods[meth].escalates)
  }

  /** The cap: an unknown method on a full host first drops what has expired. */
  function Roomed(methods: map<string, Mark>, meth: string, now: int): map<string, Mark> {
    if meth !in methods && |methods| >= MAX_METHODS then LiveMarks(methods, now) else methods
  }

  predicate Refused(methods: map<string, Mark>, meth: string, now: int) {
    meth !in methods && |Roomed(methods, meth, now)| >= MAX_METHODS
  }

  /** Mark on one host, with marking enabled: the host's new state and whether it escalated. */
  function MarkHost(cfg: Settings, hs: HostState, meth: string, escalates: bool, now: int): (HostState, bool) {
    var expiry := now + Lifetime(cfg, escalates);
    var room := Roomed(hs.methods, meth, now);
    if HostBlocked(hs, now) then (hs, false)
    else if Refused(hs.methods, meth, now) then (hs.(methods := room), false)
    else
      var marked := LiveMarks(room[meth := Mark(expiry, Counts(room, meth, escalates, now))], now);
      if escalates && cfg.escalation > 0 && |Evidence(marked)| >= cfg.escalation
      then (HostState(Some(expiry), map[]), true)
      else (hs.(methods := marked), false)
  }

  function DoMark(cfg: Settings, hosts: map<Host, HostState>, h: Host, meth: string, escalates: bool, now: int)
    : (map<Host, HostState>, bool)
  {
    if h.name == "" || meth == "" || cfg.ttl <= 0 then (hosts, false)
    else
      var (hs, escalated) := MarkHost(cfg, HostAt(hosts, h), meth, escalates, now);
      (hosts[h := hs], escalated)
  }

  function SweptHost(hs: HostState, now: int): HostState {
    hs.(methods := LiveMarks(hs.methods, now))
  }

  predicate Empty(hs: HostState, now: int) {
    LiveMarks(hs.methods, now) == map[] && !HostBlocked(hs, now)
  }

  function DoSweep(hosts: map<Host, HostState>, now: int): map<Host, HostState> {
    map h | h in hosts && !Empty(hosts[h], now) :: SweptHost(hosts[h], now)
  }

  function DoClear(hosts: map<Host, HostState>, service: string): map<Host, HostState> {
    map h | h in hosts && h.service != service :: hosts[h]
  }

  predicate IsBlocked(cfg: Settings, hosts: map<Host, HostState>, h: Host, meth: string, now: int) {
    var hs := HostAt(hosts, h);
    cfg.ttl > 0 && (HostBlocked(hs, now) || (meth in hs.methods && now < hs.methods[meth].expiry))
  }

  /** One host's entries in the listing. */
  function HostBlocks(name: string, hs: HostState, now: int): set<Block> {
    if HostBlocked(hs, now) then {Block(name, "", hs.until.value)}
    else set m | m in hs.methods && now < hs.methods[m].expiry :: Block(name, m, hs.methods[m].expiry)
  }

  function Listing(hosts: map<Host, HostState>, service: string, now: int): set<Block> {
    set h, b | h in hosts && h.service == service && b in HostBlocks(h.name, hosts[h], now) :: b
  }

  /** A host that is blocked wholesale holds no method marks, and no host holds more than the cap. */
  ghost predicate HostInv(hs: HostState, now: int) {
    |hs.methods| <= MAX_METHODS && "" !in hs.methods && (HostBlocked(hs, now) ==> hs.methods == map[])
  }

  ghost predicate HostsInv(hosts: map<Host, HostState>, now: int) {
    forall h :: h in hosts ==> HostInv(hosts[h], now)
  }

  // ---------------------------------------------------------- small facts

  lemma FewerLive(methods: map<string, Mark>, now: int)
    ensures |LiveMarks(methods, now)| <= |methods|
  {
    var live := LiveMarks(methods, now);
    SubsetSize(live.Keys, methods.Keys);
  }

  lemma InsertSize(methods: map<string, Mark>, meth: string, mk: Mark)
    ensures |methods[meth := mk]| == |methods| + (if meth in methods then 0 else 1)
  {
    assert methods[meth := mk].Keys == methods.Keys + {meth};
  }

  /** Marking keeps the cap and the emptiness of a blocked host. */
  lemma MarkKeepsHostInv(cfg: Settings, hs: HostState, meth: string, escalates: bool, now: int)
    requires HostInv(hs, now) && meth != ""
    ensures HostInv(MarkHost(cfg, hs, meth, escalates, now).0, now)
  {
    FewerLive(hs.methods, now);
    var room := Roomed(hs.methods, meth, now);
    if !HostBlocked(hs, now) && !Refused(hs.methods, meth, now) {
      var mk := Mark(now + Lifetime(cfg, escalates), Counts(room, meth, escalates, now));
      InsertSize(room, meth, mk);
      FewerLive(room[meth := mk], now);
    }
  }
}
