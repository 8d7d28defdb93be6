/**
 Method blocks over whole runs: lazily expired marks behave as if forgotten on
 time, the sweep is invisible to every later call, the views agree, and a
 host-level block always rests on supplier evidence that never lapsed.
 */
module MethodBlockRuns {
  import opened Prelude
  import opened MethodBlockModel
  import opened MethodBlockStore

  datatype State = State(cfg: Settings, hosts: map<Host, HostState>)

  datatype Op =
    | MarkOp(h: Host, meth: string, escalates: bool, now: int)
    | SweepOp(now: int)
    | ClearOp(service: string, now: int)
    | Configure(cfg: Settings, now: int)
    | AskBlocked(h: Host, meth: string, now: int)
    | AskActive(service: string, now: int)

  /** What a call returns. */
  datatype Reply = Nothing | Escalated(yes: bool) | Cleared(n: nat) | Blocked(yes: bool) | Active(blocks: set<Block>)

  function Apply(s: State, op: Op): State {
    match op
    case MarkOp(h, meth, escalates, now) => s.(hosts := DoMark(s.cfg, s.hosts, h, meth, escalates, now).0)
    case SweepOp(now) => s.(hosts := DoSweep(s.hosts, now))
    case ClearOp(service, _) => s.(hosts := DoClear(s.hosts, service))
    case Configure(cfg, _) => s.(cfg := cfg)
    case _ => s
  }

  function Answer(s: State, op: Op): Reply {
    match op
    case MarkOp(h, meth, escalates, now) => Escalated(DoMark(s.cfg, s.hosts, h, meth, escalates, now).1)
    case ClearOp(service, now) => Cleared(|Listing(s.hosts, service, now)|)
    case AskBlocked(h, meth, now) => Blocked(IsBlocked(s.cfg, s.hosts, h, meth, now))
    case AskActive(service, now) => Active(Listing(s.hosts, service, now))
    case _ => Nothing
  }

  function After(s: State, ops: seq<Op>): State {
    if ops == [] then s else Apply(After(s, ops[..|ops| - 1]), ops[|ops| - 1])
  }

  /** The clock does not go back, from `start` on. */
  predicate Ordered(ops: seq<Op>, start: int) {
    && (forall i :: 0 <= i < |ops| ==> start <= ops[i].now)
    && forall i, j :: 0 <= i < j < |ops| ==> ops[i].now <= ops[j].now
  }

  // ------------------------------------------------------------- invariant

  lemma ApplyKeepsInv(s: State, op: Op, since: int)
    requires HostsInv(s.hosts, since) && since <= op.now
    ensures HostsInv(Apply(s, op).hosts, op.now)
  {
    match op
    case MarkOp(h, meth, escalates, now) =>
      if h.name != "" && meth != "" && s.cfg.ttl > 0 {
        MarkKeepsHostInv(s.cfg, HostAt(s.hosts, h), meth, escalates, now);
      }
    case SweepOp(now) =>
      forall h | h in DoSweep(s.hosts, now)
        ensures HostInv(DoSweep(s.hosts, now)[h], now)
      {
        FewerLive(s.hosts[h].methods, now);
      }
    case _ =>
  }

  /** No run ever lets a host past the cap, or marks methods under a host-level block. */
  lemma {:induction false} RunKeepsInv(s: State, ops: seq<Op>, start: int)
    requires HostsInv(s.hosts, start) && Ordered(ops, start)
    ensures HostsInv(After(s, ops).hosts, if ops == [] then start else ops[|ops| - 1].now)
  {
    if ops != [] {
      var pre := ops[..|ops| - 1];
      RunKeepsInv(s, pre, start);
      ApplyKeepsInv(After(s, pre), ops[|ops| - 1], if pre == [] then start else pre[|pre| - 1].now);
    }
  }

  /** The hot path and the listing agree on every host and method. */
  lemma ViewsAgree(s: State, h: Host, meth: string, now: int)
    requires HostsInv(s.hosts, now) && s.cfg.ttl > 0
    ensures IsBlocked(s.cfg, s.hosts, h, meth, now) <==>
            exists b :: b in Listing(s.hosts, h.service, now) && b.host == h.name && (b.meth == "" || b.meth == meth)
  {
    ListedByHost(s.hosts, h.service, now);
    assert h == Host(h.service, h.name);
    var hs := HostAt(s.hosts, h);
    if HostBlocked(hs, now) {
      assert Block(h.name, "", hs.until.value) in Listing(s.hosts, h.service, now);
    } else if meth in hs.methods && now < hs.methods[meth].expiry {
      assert Block(h.name, meth, hs.methods[meth].expiry) in Listing(s.hosts, h.service, now);
    }
  }

  /** A mark that is taken blocks its method on the host for its lifetime and not a moment longer. */
  lemma MarkBlocksExactly(cfg: Settings, hosts: map<Host, HostState>, h: Host, meth: string, escalates: bool,
        now: int, t: int)
    requires cfg.ttl > 0 && h.name != "" && meth != "" && now <= t
    requires !HostBlocked(HostAt(hosts, h), now) && !Refused(HostAt(hosts, h).methods, meth, now)
    ensures IsBlocked(cfg, DoMark(cfg, hosts, h, meth, escalates, now).0, h, meth, t) <==>
            t < now + if !escalates && cfg.clientTTL > 0 then cfg.clientTTL else cfg.ttl
  {
  }

  // ------------------------------------- lazy expiry refines eager expiry

  /** What is left of a host once everything expired is forgotten. */
  function View(hs: HostState, now: int): HostState {
    HostState(if HostBlocked(hs, now) then hs.until else None, LiveMarks(hs.methods, now))
  }

  /** Mark on a store that forgets on time: no expiry tests, no clean-up, one cap. */
  function EagerMark(cfg: Settings, v: HostState, meth: string, escalates: bool, now: int): (HostState, bool) {
    var expiry := now + Lifetime(cfg, escalates);
    var sticky := meth in v.methods && v.methods[meth].escalates;
    var marked := v.methods[meth := Mark(expiry, escalates || sticky)];
    if v.until.Some? || (meth !in v.methods && |v.methods| >= MAX_METHODS) then (v, false)
    else if escalates && cfg.escalation > 0 && |Evidence(marked)| >= cfg.escalation then (HostState(Some(expiry), map[]), true)
    else (v.(methods := marked), false)
  }

  lemma LiveOfLive(methods: map<string, Mark>, earlier: int, now: int)
    requires earlier <= now
    ensures LiveMarks(LiveMarks(methods, earlier), now) == LiveMarks(methods, now)
  {
  }

  /** The cap bites at the same moment whether or not expired marks are still lying about. */
  lemma CapCountsLive(methods: map<string, Mark>, meth: string, now: int)
    requires |methods| <= MAX_METHODS
    ensures Refused(methods, meth, now) <==> meth !in LiveMarks(methods, now) && |LiveMarks(methods, now)| >= MAX_METHODS
  {
    FewerLive(methods, now);
    var live := LiveMarks(methods, now);
    if meth in methods && |live| >= MAX_METHODS {
      SubsetSize(live.Keys, methods.Keys);
    }
  }

  /** A mark that is taken lands on the live marks. */
  lemma MarkTaken(methods: map<string, Mark>, meth: string, mk: Mark, now: int)
    requires now < mk.expiry
    ensures LiveMarks(Roomed(methods, meth, now)[meth := mk], now) == LiveMarks(methods, now)[meth := mk]
    ensures LiveMarks(LiveMarks(methods, now)[meth := mk], now) == LiveMarks(methods, now)[meth := mk]
  {
  }

  /** Whether a mark counts depends on the live marks only. */
  lemma CountsLive(methods: map<string, Mark>, meth: string, escalates: bool, now: int)
    ensures var live := LiveMarks(methods, now);
            Counts(Roomed(methods, meth, now), meth, escalates, now) == (escalates || (meth in live && live[meth].escalates))
  {
  }

  lemma MarkRefinesTaken(cfg: Settings, hs: HostState, meth: string, escalates: bool, now: int)
    requires HostInv(hs, now) && cfg.ttl > 0 && !HostBlocked(hs, now) && !Refused(hs.methods, meth, now)
    ensures var (lazy, a) := MarkHost(cfg, hs, meth, escalates, now);
            var (eager, b) := EagerMark(cfg, View(hs, now), meth, escalates, now);
            a == b && View(lazy, now) == View(eager, now)
  {
    CapCountsLive(hs.methods, meth, now);
    CountsLive(hs.methods, meth, escalates, now);
    var counts := Counts(Roomed(hs.methods, meth, now), meth, escalates, now);
    MarkTaken(hs.methods, meth, Mark(now + Lifetime(cfg, escalates), counts), now);
  }

  /** Marking a host and marking what eager expiry leaves of it come to the same thing. */
  lemma MarkRefinesEager(cfg: Settings, hs: HostState, meth: string, escalates: bool, now: int)
    requires HostInv(hs, now) && cfg.ttl > 0
    ensures var (lazy, a) := MarkHost(cfg, hs, meth, escalates, now);
            var (eager, b) := EagerMark(cfg, View(hs, now), meth, escalates, now);
            a == b && View(lazy, now) == View(eager, now)
  {
    if !HostBlocked(hs, now) && !Refused(hs.methods, meth, now) {
      MarkRefinesTaken(cfg, hs, meth, escalates, now);
    } else {
      CapCountsLive(hs.methods, meth, now);
      LiveOfLive(hs.methods, now, now);
    }
  }

  /** Marking two hosts that look alike leaves them looking alike, with the same answer. */
  lemma MarkAlike(cfg: Settings, x: HostState, y: HostState, meth: string, escalates: bool, now: int)
    requires HostInv(x, now) && HostInv(y, now) && cfg.ttl > 0 && View(x, now) == View(y, now)
    ensures MarkHost(cfg, x, meth, escalates, now).1 == MarkHost(cfg, y, meth, escalates, now).1
    ensures View(MarkHost(cfg, x, meth, escalates, now).0, now) == View(MarkHost(cfg, y, meth, escalates, now).0, now)
  {
    MarkRefinesEager(cfg, x, meth, escalates, now);
    MarkRefinesEager(cfg, y, meth, escalates, now);
  }

  /** Two stores no later call can tell apart. */
  ghost predicate Alike(a: State, b: State, now: int) {
    a.cfg == b.cfg && forall h :: View(HostAt(a.hosts, h), now) == View(HostAt(b.hosts, h), now)
  }

  lemma AlikeLater(a: State, b: State, earlier: int, now: int)
    requires Alike(a, b, earlier) && earlier <= now
    ensures Alike(a, b, now)
  {
    forall h
      ensures View(HostAt(a.hosts, h), now) == View(HostAt(b.hosts, h), now)
    {
      ViewLater(HostAt(a.hosts, h), earlier, now);
      ViewLater(HostAt(b.hosts, h), earlier, now);
    }
  }

  lemma ViewLater(hs: HostState, earlier: int, now: int)
    requires earlier <= now
    ensures View(hs, now) == View(View(hs, earlier), now)
  {
    LiveOfLive(hs.methods, earlier, now);
  }

  /** When an entry is in the listing of a host that is not blocked wholesale. */
  lemma ListedMethod(name: string, hs: HostState, now: int, x: Block)
    requires !HostBlocked(hs, now)
    ensures x in HostBlocks(name, hs, now) <==>
            x.host == name && x.meth in hs.methods && now < hs.methods[x.meth].expiry == x.expiry
  {
    if x.host == name && x.meth in hs.methods && now < hs.methods[x.meth].expiry == x.expiry {
      assert x == Block(name, x.meth, hs.methods[x.meth].expiry);
    }
  }

  lemma HostBlocksOfView(name: string, hs: HostState, now: int)
    ensures HostBlocks(name, hs, now) == HostBlocks(name, View(hs, now), now)
  {
    if !HostBlocked(hs, now) {
      forall x
        ensures x in HostBlocks(name, hs, now) <==> x in HostBlocks(name, View(hs, now), now)
      {
        ListedMethod(name, hs, now, x);
        ListedMethod(name, View(hs, now), now, x);
      }
    }
  }

  lemma AlikeListing(a: State, b: State, service: string, now: int)
    requires Alike(a, b, now)
    ensures Listing(a.hosts, service, now) == Listing(b.hosts, service, now)
  {
    ListedByHost(a.hosts, service, now);
    ListedByHost(b.hosts, service, now);
    forall x
      ensures x in Listing(a.hosts, service, now) <==> x in Listing(b.hosts, service, now)
    {
      var h := Host(service, x.host);
      HostBlocksOfView(x.host, HostAt(a.hosts, h), now);
      HostBlocksOfView(x.host, HostAt(b.hosts, h), now);
    }
  }

  lemma AlikeBlocked(a: State, b: State, h: Host, meth: string, now: int)
    requires Alike(a, b, now)
    ensures IsBlocked(a.cfg, a.hosts, h, meth, now) == IsBlocked(b.cfg, b.hosts, h, meth, now)
  {
    var x, y := HostAt(a.hosts, h), HostAt(b.hosts, h);
    assert View(x, now) == View(y, now);
    assert meth in LiveMarks(x.methods, now) <==> meth in LiveMarks(y.methods, now);
  }

  lemma AlikeAnswers(a: State, b: State, op: Op)
    requires Alike(a, b, op.now) && HostsInv(a.hosts, op.now) && HostsInv(b.hosts, op.now)
    ensures Answer(a, op) == Answer(b, op)
  {
    match op
    case MarkOp(h, meth, escalates, now) =>
      if a.cfg.ttl > 0 {
        MarkAlike(a.cfg, HostAt(a.hosts, h), HostAt(b.hosts, h), meth, escalates, now);
      }
    case ClearOp(service, now) => AlikeListing(a, b, service, now);
    case AskActive(service, now) => AlikeListing(a, b, service, now);
    case AskBlocked(h, meth, now) => AlikeBlocked(a, b, h, meth, now);
    case _ =>
  }

  lemma SweepLeavesViews(s: State, now: int)
    ensures Alike(s.(hosts := DoSweep(s.hosts, now)), s, now)
  {
    forall h
      ensures View(HostAt(DoSweep(s.hosts, now), h), now) == View(HostAt(s.hosts, h), now)
    {
      LiveOfLive(HostAt(s.hosts, h).methods, now, now);
    }
  }

  lemma AlikeWith(a: State, b: State, h: Host, x: HostState, y: HostState, now: int)
    requires Alike(a, b, now) && View(x, now) == View(y, now)
    ensures Alike(a.(hosts := a.hosts[h := x]), b.(hosts := b.hosts[h := y]), now)
  {
    var a', b' := a.hosts[h := x], b.hosts[h := y];
    forall j
      ensures View(HostAt(a', j), now) == View(HostAt(b', j), now)
    {
      assert View(HostAt(a.hosts, j), now) == View(HostAt(b.hosts, j), now);
    }
  }

  lemma AlikeMark(a: State, b: State, h: Host, meth: string, escalates: bool, now: int)
    requires Alike(a, b, now) && HostsInv(a.hosts, now) && HostsInv(b.hosts, now)
    ensures Alike(Apply(a, MarkOp(h, meth, escalates, now)), Apply(b, MarkOp(h, meth, escalates, now)), now)
  {
    if h.name != "" && meth != "" && a.cfg.ttl > 0 {
      var x, y := HostAt(a.hosts, h), HostAt(b.hosts, h);
      MarkAlike(a.cfg, x, y, meth, escalates, now);
      AlikeWith(a, b, h, MarkHost(a.cfg, x, meth, escalates, now).0, MarkHost(b.cfg, y, meth, escalates, now).0, now);
    }
  }

  lemma AlikeClear(a: State, b: State, service: string, now: int)
    requires Alike(a, b, now)
    ensures Alike(a.(hosts := DoClear(a.hosts, service)), b.(hosts := DoClear(b.hosts, service)), now)
  {
    forall h
      ensures View(HostAt(DoClear(a.hosts, service), h), now) == View(HostAt(DoClear(b.hosts, service), h), now)
    {
      assert View(HostAt(a.hosts, h), now) == View(HostAt(b.hosts, h), now);
    }
  }

  lemma AlikeApply(a: State, b: State, op: Op)
    requires Alike(a, b, op.now) && HostsInv(a.hosts, op.now) && HostsInv(b.hosts, op.now)
    ensures Alike(Apply(a, op), Apply(b, op), op.now)
  {
    match op
    case MarkOp(h, meth, escalates, now) => AlikeMark(a, b, h, meth, escalates, now);
    case ClearOp(service, now) => AlikeClear(a, b, service, now);
    case SweepOp(now) =>
      SweepLeavesViews(a, now);
      SweepLeavesViews(b, now);
      forall h
        ensures View(HostAt(Apply(a, op).hosts, h), now) == View(HostAt(Apply(b, op).hosts, h), now)
      {
        assert View(HostAt(a.hosts, h), now) == View(HostAt(b.hosts, h), now);
      }
    case _ =>
  }

  lemma {:induction false} AlikeRun(a: State, b: State, ops: seq<Op>, start: int)
    requires Alike(a, b, start) && HostsInv(a.hosts, start) && HostsInv(b.hosts, start) && Ordered(ops, start)
    ensures Alike(After(a, ops), After(b, ops), if ops == [] then start else ops[|ops| - 1].now)
  {
    if ops != [] {
      var pre, op := ops[..|ops| - 1], ops[|ops| - 1];
      var last := if pre == [] then start else pre[|pre| - 1].now;
      AlikeRun(a, b, pre, start);
      RunKeepsInv(a, pre, start);
      RunKeepsInv(b, pre, start);
      AlikeLater(After(a, pre), After(b, pre), last, op.now);
      AlikeApply(After(a, pre), After(b, pre), op);
    }
  }

  /** The sweep is invisible: after any later run, every call answers as if it had never happened. */
  lemma {:induction false} SweepInvisible(s: State, now: int, ops: seq<Op>, op: Op)
    requires HostsInv(s.hosts, now) && Ordered(ops + [op], now)
    ensures Answer(After(s.(hosts := DoSweep(s.hosts, now)), ops), op) == Answer(After(s, ops), op)
  {
    var swept := s.(hosts := DoSweep(s.hosts, now));
    assert forall i :: 0 <= i < |ops| ==> ops[i] == (ops + [op])[i];
    assert op == (ops + [op])[|ops|];
    var last := if ops == [] then now else ops[|ops| - 1].now;
    SweepLeavesViews(s, now);
    ApplyKeepsInv(s, SweepOp(now), now);
    AlikeRun(swept, s, ops, now);
    RunKeepsInv(swept, ops, now);
    RunKeepsInv(s, ops, now);
    AlikeLater(After(swept, ops), After(s, ops), last, op.now);
    AlikeAnswers(After(swept, ops), After(s, ops), op);
  }

  // ------------------------------------------------------------- evidence

  /** The host's marks after the first n operations. */
  function MarksAt(s: State, ops: seq<Op>, n: nat, h: Host): map<string, Mark>
    requires n <= |ops|
  {
    HostAt(After(s, ops[..n]).hosts, h).methods
  }

  /** m's evidence stands at time t. */
  predicate Stands(methods: map<string, Mark>, m: string, t: int) {
    m in methods && methods[m].escalates && methods[m].expiry > t
  }

  /** From its supplier mark at step j, m's evidence has stood at every step since, each time up to the next call. */
  ghost predicate StoodSince(s: State, ops: seq<Op>, h: Host, m: string, j: nat, until: int) {
    && j < |ops|
    && ops[j].MarkOp? && ops[j].h == h && ops[j].meth == m && ops[j].escalates
    && forall n :: j < n <= |ops| ==> Stands(MarksAt(s, ops, n, h), m, if n < |ops| then ops[n].now else until)
  }

  /** Evidence that stands was given by the supplier and has stood ever since. */
  ghost predicate Backed(s: State, ops: seq<Op>, h: Host, m: string, until: int) {
    exists j :: StoodSince(s, ops, h, m, j, until)
  }

  lemma {:induction false} StoodLonger(s: State, pre: seq<Op>, op: Op, h: Host, m: string, j: nat, until: int)
    requires StoodSince(s, pre, h, m, j, op.now) && Stands(HostAt(After(s, pre + [op]).hosts, h).methods, m, until)
    ensures StoodSince(s, pre + [op], h, m, j, until)
  {
    var ops := pre + [op];
    forall n | j < n <= |ops|
      ensures Stands(MarksAt(s, ops, n, h), m, if n < |ops| then ops[n].now else until)
    {
      if n <= |pre| {
        assert ops[..n] == pre[..n];
        assert Stands(MarksAt(s, pre, n, h), m, if n < |pre| then pre[n].now else op.now);
      } else {
        assert ops[..n] == ops;
      }
    }
  }

  /** Evidence standing after a step stood before it, or the step is the supplier's mark. */
  lemma EvidenceStep(s: State, op: Op, h: Host, m: string, t: int)
    requires op.now <= t && Stands(HostAt(Apply(s, op).hosts, h).methods, m, t)
    ensures || Stands(HostAt(s.hosts, h).methods, m, op.now)
            || (op.MarkOp? && op.h == h && op.meth == m && op.escalates)
  {
  }

  lemma {:induction false} StandingIsBacked(cfg: Settings, ops: seq<Op>, start: int, h: Host, m: string, t: int)
    requires Ordered(ops, start) && (ops != [] ==> ops[|ops| - 1].now <= t)
    requires Stands(HostAt(After(State(cfg, map[]), ops).hosts, h).methods, m, t)
    ensures Backed(State(cfg, map[]), ops, h, m, t)
  {
    var s := State(cfg, map[]);
    if ops != [] {
      var pre, op := ops[..|ops| - 1], ops[|ops| - 1];
      assert ops == pre + [op];
      EvidenceStep(After(s, pre), op, h, m, t);
      if Stands(HostAt(After(s, pre).hosts, h).methods, m, op.now) {
        StandingIsBacked(cfg, pre, start, h, m, op.now);
        var j :| StoodSince(s, pre, h, m, j, op.now);
        StoodLonger(s, pre, op, h, m, j, t);
      } else {
        assert ops[..|ops|] == ops;
        assert StoodSince(s, ops, h, m, |pre|, t);
      }
    }
  }

  /** The methods an escalating mark counts: its own, and others whose evidence stands. */
  lemma EscalatingMethods(cfg: Settings, hs: HostState, meth: string, escalates: bool,
        now: int) returns (ms: set<string>)
    requires cfg.ttl > 0 && MarkHost(cfg, hs, meth, escalates, now).1
    ensures escalates && |ms| >= cfg.escalation > 0 && meth in ms
    ensures forall m :: m in ms && m != meth ==> Stands(hs.methods, m, now)
  {
    var room := Roomed(hs.methods, meth, now);
    ms := Evidence(LiveMarks(room[meth := Mark(now + Lifetime(cfg, escalates), Counts(room, meth, escalates, now))], now));
  }

  /**
   A host is blocked wholesale only on supplier evidence: the mark that does it
   is supplier-attributed, and there are at least `escalation` distinct methods,
   its own among them, each marked by the supplier and standing without a gap
   from that mark to this one.
   */
  lemma {:induction false} HostBlockNeedsEvidence(cfg: Settings, ops: seq<Op>, start: int, h: Host, meth: string, escalates: bool,
        now: int)
    requires Ordered(ops + [MarkOp(h, meth, escalates, now)], start)
    requires Answer(After(State(cfg, map[]), ops), MarkOp(h, meth, escalates, now)) == Escalated(true)
    ensures escalates && After(State(cfg, map[]), ops).cfg.escalation > 0
    ensures exists ms: set<string> ::
              && |ms| >= After(State(cfg, map[]), ops).cfg.escalation
              && meth in ms
              && forall m :: m in ms && m != meth ==> Backed(State(cfg, map[]), ops, h, m, now)
  {
    var s := After(State(cfg, map[]), ops);
    var all := ops + [MarkOp(h, meth, escalates, now)];
    assert forall i :: 0 <= i < |ops| ==> ops[i] == all[i];
    assert all[|ops|].now == now;
    var ms := EscalatingMethods(s.cfg, HostAt(s.hosts, h), meth, escalates, now);
    forall m | m in ms && m != meth
      ensures Backed(State(cfg, map[]), ops, h, m, now)
    {
      StandingIsBacked(cfg, ops, start, h, m, now);
    }
  }

  function Standing(methods: map<string, Mark>, now: int): set<string> {
    set m | m in methods && Stands(methods, m, now)
  }

  lemma EvidenceWith(methods: map<string, Mark>, meth: string, mk: Mark, now: int)
    requires mk.escalates
    ensures Evidence(LiveMarks(methods, now)[meth := mk]) == Standing(methods, now) + {meth}
  {
  }

  /** The count an accepted supplier mark is judged by. */
  lemma EscalatesBy(cfg: Settings, hs: HostState, meth: string, now: int, mk: Mark)
    requires !HostBlocked(hs, now) && !Refused(hs.methods, meth, now) && mk == Mark(now + Lifetime(cfg, true), true)
    ensures MarkHost(cfg, hs, meth, true, now).1 <==>
            cfg.escalation > 0 && |Evidence(LiveMarks(Roomed(hs.methods, meth, now)[meth := mk], now))| >= cfg.escalation
  {
  }

  lemma EscalatesAt(cfg: Settings, hs: HostState, meth: string, now: int)
    requires cfg.ttl > 0 && !HostBlocked(hs, now) && !Refused(hs.methods, meth, now)
    ensures MarkHost(cfg, hs, meth, true, now).1 <==> cfg.escalation > 0 && |Standing(hs.methods, now) + {meth}| >= cfg.escalation
  {
    var mk := Mark(now + Lifetime(cfg, true), true);
    EscalatesBy(cfg, hs, meth, now, mk);
    MarkTaken(hs.methods, meth, mk, now);
    EvidenceWith(hs.methods, meth, mk, now);
  }

  /**
   After any run, a supplier mark that is taken blocks the host wholesale exactly when enough
   methods, its own included, have standing evidence; and evidence stands exactly when the
   supplier gave it and it has been live ever since.
   */
  lemma {:induction false} EscalatesExactlyWhen(cfg: Settings, ops: seq<Op>, start: int, h: Host, meth: string, now: int)
    requires Ordered(ops + [MarkOp(h, meth, true, now)], start) && h.name != "" && meth != ""
    requires var s := After(State(cfg, map[]), ops);
             s.cfg.ttl > 0 && !HostBlocked(HostAt(s.hosts, h), now) && !Refused(HostAt(s.hosts, h).methods, meth, now)
    ensures var s := After(State(cfg, map[]), ops);
            var standing := Standing(HostAt(s.hosts, h).methods, now);
            && (Answer(s, MarkOp(h, meth, true, now)) == Escalated(true) <==> s.cfg.escalation > 0 && |standing + {meth}| >= s.cfg.escalation)
            && (forall m :: m in standing <==> Backed(State(cfg, map[]), ops, h, m, now))
  {
    var s := After(State(cfg, map[]), ops);
    var all := ops + [MarkOp(h, meth, true, now)];
    assert forall i :: 0 <= i < |ops| ==> ops[i] == all[i];
    assert all[|ops|].now == now;
    EscalatesAt(s.cfg, HostAt(s.hosts, h), meth, now);
    forall m
      ensures m in Standing(HostAt(s.hosts, h).methods, now) <==> Backed(State(cfg, map[]), ops, h, m, now)
    {
      if m in Standing(HostAt(s.hosts, h).methods, now) {
        StandingIsBacked(cfg, ops, start, h, m, now);
      }
      if Backed(State(cfg, map[]), ops, h, m, now) {
        var j :| StoodSince(State(cfg, map[]), ops, h, m, j, now);
        assert Stands(MarksAt(State(cfg, map[]), ops, |ops|, h), m, now);
        assert ops[..|ops|] == ops;
      }
    }
  }

  /** Only an escalating mark installs a host-level block. */
  lemma BlockInstalledByEscalation(s: State, op: Op, h: Host)
    requires HostAt(Apply(s, op).hosts, h).until.Some?
    ensures || HostAt(Apply(s, op).hosts, h).until == HostAt(s.hosts, h).until
            || (op.MarkOp? && op.h == h && op.escalates && Answer(s, op) == Escalated(true))
  {
  }

  /** Client-attributed marks alone never remove a host, however many there are. */
  lemma {:induction false} ClientMarksNeverBlockHost(cfg: Settings, ops: seq<Op>, h: Host)
    requires forall i :: 0 <= i < |ops| && ops[i].MarkOp? && ops[i].h == h ==> !ops[i].escalates
    ensures HostAt(After(State(cfg, map[]), ops).hosts, h).until == None
  {
    if ops != [] {
      var pre := ops[..|ops| - 1];
      ClientMarksNeverBlockHost(cfg, pre, h);
      if HostAt(After(State(cfg, map[]), ops).hosts, h).until.Some? {
        BlockInstalledByEscalation(After(State(cfg, map[]), pre), ops[|ops| - 1], h);
      }
    }
  }

  // ------------------------------------------------- what else a call changes

  /** A mark concerns one host: every other is listed and blocked as before. */
  lemma MarkTouchesOneHost(cfg: Settings, hosts: map<Host, HostState>, h: Host, meth: string, escalates: bool, now: int, other: Host)
    requires other != h
    ensures Lookup(DoMark(cfg, hosts, h, meth, escalates, now).0, other) == Lookup(hosts, other)
  {
  }

  /** On its own host, a mark that does not escalate leaves every other method as it was, and one that does blocks them all. */
  lemma MarkAndOtherMethods(cfg: Settings, hosts: map<Host, HostState>, h: Host, meth: string, escalates: bool,
        now: int, other: string, t: int)
    requires cfg.ttl > 0 && HostsInv(hosts, now) && other != meth && now <= t
    ensures var (after, escalated) := DoMark(cfg, hosts, h, meth, escalates, now);
            IsBlocked(cfg, after, h, other, t) <==> if escalated then t < now + cfg.ttl else IsBlocked(cfg, hosts, h, other, t)
  {
  }

  /** Clearing a service lifts every block of it, and none of another's. */
  lemma ClearLiftsOnlyService(cfg: Settings, hosts: map<Host, HostState>, service: string, h: Host, meth: string, now: int)
    ensures IsBlocked(cfg, DoClear(hosts, service), h, meth, now) <==> h.service != service && IsBlocked(cfg, hosts, h, meth, now)
    ensures h.service == service ==> h !in DoClear(hosts, service)
    ensures h.service != service ==> Lookup(DoClear(hosts, service), h) == Lookup(hosts, h)
  {
  }

  /** Switched off, nothing is blocked and no mark is taken. */
  lemma OffBlocksNothing(cfg: Settings, hosts: map<Host, HostState>, h: Host, meth: string, escalates: bool, now: int)
    requires cfg.ttl <= 0
    ensures !IsBlocked(cfg, hosts, h, meth, now) && DoMark(cfg, hosts, h, meth, escalates, now) == (hosts, false)
  {
  }
}
