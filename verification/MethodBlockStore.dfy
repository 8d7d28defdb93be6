/** The method-block store itself: maps changed in place, loops that delete while they count. */
module MethodBlockStore {
  import opened Prelude
  import opened MethodBlockModel

  class Store {
    var ttl: int
    var clientTTL: int
    var escalation: int
    var hosts: map<Host, HostState>

    function Cfg(): Settings
      reads this
    {
      Settings(ttl, clientTTL, escalation)
    }

    constructor (cfg: Settings)
      ensures Cfg() == cfg && hosts == map[]
    {
      ttl, clientTTL, escalation := cfg.ttl, cfg.clientTTL, cfg.escalation;
      hosts := map[];
    }

    method SetTTL(d: int)
      modifies `ttl
      ensures Cfg() == old(Cfg()).(ttl := d)
    {
      ttl := d;
    }

    method SetClientTTL(d: int)
      modifies `clientTTL
      ensures Cfg() == old(Cfg()).(clientTTL := d)
    {
      clientTTL := d;
    }

    method SetEscalation(n: int)
      modifies `escalation
      ensures Cfg() == old(Cfg()).(escalation := n)
    {
      escalation := n;
    }

    method Blocked(h: Host, meth: string, now: int) returns (blocked: bool)
      ensures blocked <==> IsBlocked(Cfg(), hosts, h, meth, now)
    {
      if ttl <= 0 || h !in hosts {
        return false;
      }
      var hs := hosts[h];
      if hs.until.Some? && now < hs.until.value {
        return true;
      }
      blocked := meth in hs.methods && now < hs.methods[meth].expiry;
    }

    method Mark(h: Host, meth: string, escalates: bool, now: int) returns (escalated: bool)
      modifies `hosts
      ensures (hosts, escalated) == DoMark(Cfg(), old(hosts), h, meth, escalates, now)
    {
      if h.name == "" || meth == "" || ttl <= 0 {
        return false;
      }
      var hs := if h in hosts then hosts[h] else NO_MARKS;
      hs, escalated := MarkOne(hs, meth, escalates, now);
      hosts := hosts[h := hs];
    }

    /** The host's own share of Mark. */
    method MarkOne(before: HostState, meth: string, escalates: bool, now: int) returns (hs: HostState, escalated: bool)
      ensures (hs, escalated) == MarkHost(Cfg(), before, meth, escalates, now)
    {
      hs, escalated := before, false;
      if hs.until.Some? && now < hs.until.value {
        return;
      }
      var room, refused := MakeRoom(hs.methods, meth, now);
      hs := hs.(methods := room);
      if refused {
        return;
      }
      hs, escalated := TakeMark(Cfg(), hs, meth, escalates, now);
    }

    /** What is cleared is what was listed: the count is the number of live blocks. */
    method Clear(service: string, now: int) returns (n: nat)
      modifies `hosts
      ensures hosts == DoClear(old(hosts), service)
      ensures HostsInv(old(hosts), now) ==> n == |Listing(old(hosts), service, now)|
    {
      n := CountActive(service, now);
      hosts := map h | h in hosts && h.service != service :: hosts[h];
    }

    method CountActive(service: string, now: int) returns (n: nat)
      ensures HostsInv(hosts, now) ==> n == |Listing(hosts, service, now)|
    {
      n := 0;
      var todo := set h | h in hosts && h.service == service;
      ghost var counted: set<Block> := {};
      while todo != {}
        invariant todo <= hosts.Keys && forall h :: h in todo ==> h.service == service
        invariant forall b :: b in counted <==> Host(service, b.host) in hosts && Host(service, b.host) !in todo
                                                && b in HostBlocks(b.host, hosts[Host(service, b.host)], now)
        invariant HostsInv(hosts, now) ==> n == |counted|
        decreases |todo|
      {
        var h :| h in todo;
        todo := todo - {h};
        assert h == Host(service, h.name);
        var k := CountHost(hosts[h], now);
        n := n + k;
        ghost var more := HostBlocks(h.name, hosts[h], now);
        assert counted !! more by {
          assert forall b :: b in more ==> b.host == h.name;
        }
        counted := counted + more;
        HostBlocksSize(h.name, hosts[h], now);
      }
      ListedByHost(hosts, service, now);
      assert counted == Listing(hosts, service, now);
    }

    /** Every live block of the service, each once. */
    method Active(service: string, now: int) returns (out: seq<Block>)
      ensures forall b :: multiset(out)[b] == if b in Listing(hosts, service, now) then 1 else 0
    {
      out := [];
      var todo := set h | h in hosts && h.service == service;
      while todo != {}
        invariant todo <= hosts.Keys && forall h :: h in todo ==> h.service == service
        invariant forall b :: multiset(out)[b] ==
                              if Host(service, b.host) in hosts && Host(service, b.host) !in todo
                                 && b in HostBlocks(b.host, hosts[Host(service, b.host)], now) then 1 else 0
        decreases |todo|
      {
        var h :| h in todo;
        todo := todo - {h};
        var more := HostActive(h.name, hosts[h], now);
        assert h == Host(service, h.name);
        out := out + more;
      }
      ListedByHost(hosts, service, now);
    }

    method Sweep(now: int)
      modifies `hosts
      ensures hosts == DoSweep(old(hosts), now)
    {
      var todo := hosts.Keys;
      ghost var was := hosts;
      while todo != {}
        invariant todo <= was.Keys && hosts.Keys <= was.Keys
        invariant forall h :: h in todo ==> h in hosts && hosts[h] == was[h]
        invariant forall h :: h in was && h !in todo ==>
                              (h in hosts <==> !Empty(was[h], now)) && (h in hosts ==> hosts[h] == SweptHost(was[h], now))
        decreases |todo|
      {
        var h :| h in todo;
        todo := todo - {h};
        var swept, empty := SweepOne(hosts[h], now);
        hosts := hosts[h := swept];
        if empty {
          hosts := hosts - {h};
        }
      }
    }
  }

  /** The cap: a full host drops what has expired before it takes another method, and may still be full. */
  method MakeRoom(methods: map<string, Mark>, meth: string, now: int) returns (room: map<string, Mark>, refused: bool)
    ensures room == Roomed(methods, meth, now) && (refused <==> Refused(methods, meth, now))
  {
    room, refused := methods, false;
    if meth !in methods && |methods| >= MAX_METHODS {
      room := DropExpired(methods, now);
      refused := |room| >= MAX_METHODS;
    }
  }

  /** A mark taken: its lifetime, whether it counts, and whether the host is now blocked wholesale. */
  method TakeMark(cfg: Settings, hs: HostState, meth: string, escalates: bool, now: int) returns (after: HostState,
        escalated: bool)
    ensures var expiry := now + Lifetime(cfg, escalates);
            var marked := LiveMarks(hs.methods[meth := MethodBlockModel.Mark(expiry, Counts(hs.methods, meth, escalates, now))], now);
            (after, escalated) == if escalates && cfg.escalation > 0 && |Evidence(marked)| >= cfg.escalation
                                  then (HostState(Some(expiry), map[]), true) else (hs.(methods := marked), false)
  {
    var lifetime := cfg.ttl;
    if !escalates && cfg.clientTTL > 0 {
      lifetime := cfg.clientTTL;
    }
    var expiry := now + lifetime;
    var counts := escalates;
    if meth in hs.methods && now < hs.methods[meth].expiry && hs.methods[meth].escalates {
      counts := true;
    }
    var live, n := DropAndCount(hs.methods[meth := MethodBlockModel.Mark(expiry, counts)], now);
    escalated := escalates && cfg.escalation > 0 && n >= cfg.escalation;
    after := if escalated then HostState(Some(expiry), map[]) else hs.(methods := live);
  }

  /** A host without its expired marks, and whether nothing is left of it. */
  method SweepOne(hs: HostState, now: int) returns (swept: HostState, empty: bool)
    ensures swept == SweptHost(hs, now) && (empty <==> Empty(hs, now))
  {
    var live := DropExpired(hs.methods, now);
    swept := hs.(methods := live);
    empty := |live| == 0 && !(hs.until.Some? && now < hs.until.value);
  }

  method DropExpired(methods: map<string, Mark>, now: int) returns (live: map<string, Mark>)
    ensures live == LiveMarks(methods, now)
  {
    live := methods;
    var todo := methods.Keys;
    while todo != {}
      invariant todo <= methods.Keys && live.Keys <= methods.Keys
      invariant forall m :: m in methods ==> (m in live <==> m in todo || now < methods[m].expiry)
      invariant forall m :: m in live ==> live[m] == methods[m]
      decreases |todo|
    {
      var m :| m in todo;
      todo := todo - {m};
      if !(now < methods[m].expiry) {
        live := live - {m};
      }
    }
  }

  /** Drops what has expired and counts the live marks with supplier evidence. */
  method DropAndCount(methods: map<string, Mark>, now: int) returns (live: map<string, Mark>, n: nat)
    ensures live == LiveMarks(methods, now) && n == |Evidence(live)|
  {
    live, n := methods, 0;
    var todo := methods.Keys;
    ghost var found: set<string> := {};
    while todo != {}
      invariant todo <= methods.Keys && live.Keys <= methods.Keys
      invariant forall m :: m in methods ==> (m in live <==> m in todo || now < methods[m].expiry)
      invariant forall m :: m in live ==> live[m] == methods[m]
      invariant n == |found|
      invariant forall m :: m in found <==> m in methods && m !in todo && now < methods[m].expiry && methods[m].escalates
      decreases |todo|
    {
      var m :| m in todo;
      todo := todo - {m};
      if !(now < methods[m].expiry) {
        live := live - {m};
      } else if methods[m].escalates {
        found := found + {m};
        n := n + 1;
      }
    }
    assert found == Evidence(live);
  }

  method CountHost(hs: HostState, now: int) returns (n: nat)
    ensures n == (if HostBlocked(hs, now) then 1 else 0) + |LiveMarks(hs.methods, now)|
  {
    n := if hs.until.Some? && now < hs.until.value then 1 else 0;
    var todo := hs.methods.Keys;
    ghost var live: set<string> := {};
    while todo != {}
      invariant todo <= hs.methods.Keys
      invariant forall m :: m in live <==> m in hs.methods && m !in todo && now < hs.methods[m].expiry
      invariant n == (if HostBlocked(hs, now) then 1 else 0) + |live|
      decreases |todo|
    {
      var m :| m in todo;
      todo := todo - {m};
      if now < hs.methods[m].expiry {
        live := live + {m};
        n := n + 1;
      }
    }
    assert live == LiveMarks(hs.methods, now).Keys;
  }

  method HostActive(name: string, hs: HostState, now: int) returns (out: seq<Block>)
    ensures forall b :: multiset(out)[b] == if b in HostBlocks(name, hs, now) then 1 else 0
  {
    if hs.until.Some? && now < hs.until.value {
      return [Block(name, "", hs.until.value)];
    }
    out := [];
    var todo := hs.methods.Keys;
    while todo != {}
      invariant todo <= hs.methods.Keys
      invariant forall b :: multiset(out)[b] ==
                            if b.host == name && b.meth in hs.methods && b.meth !in todo
                               && now < hs.methods[b.meth].expiry && b.expiry == hs.methods[b.meth].expiry then 1 else 0
      decreases |todo|
    {
      var m :| m in todo;
      todo := todo - {m};
      if now < hs.methods[m].expiry {
        out := out + [Block(name, m, hs.methods[m].expiry)];
      }
    }
  }

  lemma ListedByHost(hosts: map<Host, HostState>, service: string, now: int)
    ensures forall b :: b in Listing(hosts, service, now) <==>
                        Host(service, b.host) in hosts && b in HostBlocks(b.host, hosts[Host(service, b.host)], now)
  {
    forall b
      ensures b in Listing(hosts, service, now) <==>
              Host(service, b.host) in hosts && b in HostBlocks(b.host, hosts[Host(service, b.host)], now)
    {
      if b in Listing(hosts, service, now) {
        var h :| h in hosts && h.service == service && b in HostBlocks(h.name, hosts[h], now);
        assert h == Host(service, b.host);
      }
    }
  }

  /** A host's listing has as many entries as it has live marks, or one when it is blocked wholesale. */
  lemma HostBlocksSize(name: string, hs: HostState, now: int)
    ensures HostInv(hs, now) ==>
              |HostBlocks(name, hs, now)| == (if HostBlocked(hs, now) then 1 else 0) + |LiveMarks(hs.methods, now)|
  {
    var live := LiveMarks(hs.methods, now);
    if !HostBlocked(hs, now) {
      var listed := set m | m in live :: Block(name, m, live[m].expiry);
      assert HostBlocks(name, hs, now) == listed by {
        assert forall b :: b in listed <==> b.host == name && b.meth in live && b.expiry == live[b.meth].expiry;
      }
      BlocksSize(name, live);
    } else if hs.methods == map[] {
      assert live == map[];
    }
  }

  lemma {:induction false} BlocksSize(name: string, live: map<string, Mark>)
    ensures |set m | m in live :: Block(name, m, live[m].expiry)| == |live|
    decreases |live|
  {
    var blocks := set m | m in live :: Block(name, m, live[m].expiry);
    if live != map[] {
      var m :| m in live;
      var less := live - {m};
      assert live.Keys == less.Keys + {m};
      BlocksSize(name, less);
      assert blocks == (set j | j in less :: Block(name, j, less[j].expiry)) + {Block(name, m, live[m].expiry)};
    } else {
      assert blocks == {};
    }
  }
}
