/**
 What the auto-drain hooks count (autodrain/engine.go, OnCollapse, OnSignal,
 OnAttempt, OnClientResult): one pool's minute and one service's client minute,
 and what each accepted hook call adds to them.
 */
module AutoDrainCounts {
  import opened MinuteRing
  import opened Sums

  datatype MethodCount = MethodCount(answered: int, chain: int)

  /** Every attempt, of whatever kind. */
  datatype Traffic = Traffic(attempts: int, successes: int)

  /** First and probation attempts, the fair sample, and what was answered to them by method. */
  datatype Sample = Sample(firsts: int, firstFails: int, methods: map<string, MethodCount>)

  /** One operator's minute, or its total over several. */
  datatype OpCount = OpCount(picks: int, traffic: Traffic, fair: Sample)

  const NO_METHOD := MethodCount(0, 0)
  const NO_OP := OpCount(0, Traffic(0, 0), Sample(0, 0, map[]))

  /** One pool's minute. */
  datatype Minute = Minute(collapse: int, ops: map<string, OpCount>)

  const EMPTY_MINUTE := Minute(0, map[])

  /** Whose fault an attempt's answer is; a clean answer is nobody's. */
  datatype Attribution = AttrNone | AttrUnknown | AttrSupplier | AttrBlockchain | AttrClient

  datatype Kind = First | Retry | Hedge | Probation

  /** A hook call that passed the hook's own filter. */
  datatype Event =
    | Collapse(served: seq<string>)
    | Signal(op: string, success: bool)
    | Attempt(op: string, attribution: Attribution, kind: Kind, meth: string, retried: bool)

  const MIN_ATTEMPTS := 50
  const MAX_METHODS := 64
  const OVERFLOW := "\U{0}overflow"
  const MAX_SEEN := 4

  function OpAt(ops: map<string, OpCount>, name: string): OpCount {
    if name in ops then ops[name] else NO_OP
  }

  function MethodAt(methods: map<string, MethodCount>, name: string): MethodCount {
    if name in methods then methods[name] else NO_METHOD
  }

  /** The bucket a method is counted in: its own, or the shared one past the cap. */
  function Bucket(methods: map<string, MethodCount>, name: string): string {
    if name !in methods && |methods| >= MAX_METHODS then OVERFLOW else name
  }

  function CountAnswer(methods: map<string, MethodCount>, name: string, chain: bool): map<string, MethodCount> {
    var bucket := Bucket(methods, name);
    var c := MethodAt(methods, bucket);
    methods[bucket := MethodCount(c.answered + 1, if chain then c.chain + 1 else c.chain)]
  }

  predicate FailedBy(a: Attribution) {
    a == AttrSupplier || a == AttrUnknown
  }

  /** First and probation attempts are the fair sample. */
  predicate Fair(k: Kind) {
    k == First || k == Probation
  }

  function CountSignal(c: OpCount, success: bool): OpCount {
    c.(traffic := Traffic(c.traffic.attempts + 1, if success then c.traffic.successes + 1 else c.traffic.successes))
  }

  /** A fair attempt either fails or is an answer to its method. */
  function CountFair(s: Sample, e: Event): Sample
    requires e.Attempt?
  {
    if FailedBy(e.attribution) then s.(firsts := s.firsts + 1, firstFails := s.firstFails + 1)
    else s.(firsts := s.firsts + 1, methods := CountAnswer(s.methods, e.meth, e.attribution == AttrBlockchain && !e.retried))
  }

  function CountAttempt(c: OpCount, e: Event): OpCount
    requires e.Attempt?
  {
    var c := CountSignal(c, !FailedBy(e.attribution));
    if Fair(e.kind) then c.(fair := CountFair(c.fair, e)) else c
  }

  /** The served operators that count as picks: repeats are skipped while they are remembered. */
  function Picked(served: seq<string>, seen: seq<string>): seq<string> {
    if served == [] then []
    else if served[0] in seen then Picked(served[1..], seen)
    else [served[0]] + Picked(served[1..], if |seen| < MAX_SEEN then seen + [served[0]] else seen)
  }

  function AddPicks(ops: map<string, OpCount>, picked: seq<string>): map<string, OpCount>
    decreases |picked|
  {
    if picked == [] then ops
    else
      var c := OpAt(ops, picked[0]);
      AddPicks(ops[picked[0] := c.(picks := c.picks + 1)], picked[1..])
  }

  /** One event's effect on its pool's minute. */
  function Count(m: Minute, e: Event): Minute {
    match e
    case Collapse(served) => Minute(m.collapse + 1, AddPicks(m.ops, Picked(served, [])))
    case Signal(op, success) =>
      m.(ops := m.ops[op := CountSignal(OpAt(m.ops, op), success)])
    case Attempt(op, _, _, _, _) => m.(ops := m.ops[op := CountAttempt(OpAt(m.ops, op), e)])
  }

  /** One service's minute of client-facing answers. */
  datatype ClientMinute = ClientMinute(total: int, failed: int)

  const EMPTY_CLIENT := ClientMinute(0, 0)

  /** A client-facing answer: its status and whether the chain itself gave it. */
  datatype Answer = Answer(status: int, fromChain: bool)

  predicate ClientFailed(status: int) {
    status >= 500 || status == 408 || status == 429
  }

  function CountClient(m: ClientMinute, a: Answer): ClientMinute {
    ClientMinute(m.total + 1, if !a.fromChain && ClientFailed(a.status) then m.failed + 1 else m.failed)
  }

  // ------------------------------------------------- the quantities summed

  /** The five plain counters of an operator. */
  datatype Counter = Picks | Attempts | Successes | Firsts | FirstFails

  function ReadCounter(c: OpCount, which: Counter): int {
    match which
    case Picks => c.picks
    case Attempts => c.traffic.attempts
    case Successes => c.traffic.successes
    case Firsts => c.fair.firsts
    case FirstFails => c.fair.firstFails
  }

  function Collapses(): Minute -> int {
    (m: Minute) => m.collapse
  }

  function CounterOf(which: Counter, op: string): Minute -> int {
    (m: Minute) => ReadCounter(OpAt(m.ops, op), which)
  }

  function AnsweredIn(methods: map<string, MethodCount>): string -> int {
    (name: string) => MethodAt(methods, name).answered
  }

  /** An operator's answers to all methods, the overflow bucket included. */
  ghost function TotalAnswered(methods: map<string, MethodCount>): int {
    SumOver(methods.Keys, AnsweredIn(methods))
  }

  ghost function AnswersOf(op: string): Minute -> int {
    (m: Minute) => TotalAnswered(OpAt(m.ops, op).fair.methods)
  }

  // ---------------------------------------------- what one event adds

  function Occurrences(names: seq<string>, op: string): int {
    if names == [] then 0 else (if names[0] == op then 1 else 0) + Occurrences(names[1..], op)
  }

  function IsCollapse(): Event -> int {
    (e: Event) => if e.Collapse? then 1 else 0
  }

  /** What an event is worth to one counter of one operator. */
  function Worth(which: Counter, op: string, e: Event): int {
    match e
    case Collapse(served) => if which == Picks then Occurrences(Picked(served, []), op) else 0
    case Signal(op', success) =>
      if op' != op then 0
      else if which == Attempts || (which == Successes && success) then 1 else 0
    case Attempt(op', attribution, kind, _, _) =>
      if op' != op then 0
      else match which
           case Picks => 0
           case Attempts => 1
           case Successes => if FailedBy(attribution) then 0 else 1
           case Firsts => if Fair(kind) then 1 else 0
           case FirstFails => if Fair(kind) && FailedBy(attribution) then 1 else 0
  }

  function WorthOf(which: Counter, op: string): Event -> int {
    (e: Event) => Worth(which, op, e)
  }

  /** A fair attempt the operator answered. */
  function IsAnswer(op: string): Event -> int {
    (e: Event) => if e.Attempt? && e.op == op && Fair(e.kind) && !FailedBy(e.attribution) then 1 else 0
  }

  lemma {:induction false} PicksAdd(ops: map<string, OpCount>, picked: seq<string>, op: string)
    ensures OpAt(AddPicks(ops, picked), op) == OpAt(ops, op).(picks := OpAt(ops, op).picks + Occurrences(picked, op))
    decreases |picked|
  {
    if picked != [] {
      var c := OpAt(ops, picked[0]);
      PicksAdd(ops[picked[0] := c.(picks := c.picks + 1)], picked[1..], op);
    }
  }

  lemma CountAddsWorth(m: Minute, e: Event, which: Counter, op: string)
    ensures CounterOf(which, op)(Count(m, e)) == CounterOf(which, op)(m) + Worth(which, op, e)
  {
    match e
    case Collapse(served) => PicksAdd(m.ops, Picked(served, []), op);
    case _ =>
  }

  lemma AnswerAddsOne(methods: map<string, MethodCount>, name: string, chain: bool)
    ensures TotalAnswered(CountAnswer(methods, name, chain)) == TotalAnswered(methods) + 1
  {
    var bucket := Bucket(methods, name);
    var after := CountAnswer(methods, name, chain);
    var rest := methods.Keys - {bucket};
    assert after.Keys - {bucket} == rest;
    SumTakesOut(after.Keys, AnsweredIn(after), bucket);
    SumSame(rest, AnsweredIn(after), AnsweredIn(methods));
    if bucket in methods {
      SumTakesOut(methods.Keys, AnsweredIn(methods), bucket);
    } else {
      assert rest == methods.Keys;
    }
  }

  /** Only a fair attempt on an operator changes its fair sample. */
  lemma SampleChanges(m: Minute, e: Event, op: string)
    ensures OpAt(Count(m, e).ops, op).fair ==
            if e.Attempt? && e.op == op && Fair(e.kind) then CountFair(OpAt(m.ops, op).fair, e) else OpAt(m.ops, op).fair
  {
    if e.Collapse? {
      PicksAdd(m.ops, Picked(e.served, []), op);
    }
  }

  lemma FairAddsAnswer(s: Sample, e: Event)
    requires e.Attempt?
    ensures TotalAnswered(CountFair(s, e).methods) == TotalAnswered(s.methods) + (if FailedBy(e.attribution) then 0 else 1)
  {
    if !FailedBy(e.attribution) {
      AnswerAddsOne(s.methods, e.meth, e.attribution == AttrBlockchain && !e.retried);
    }
  }

  lemma CountAddsAnswer(m: Minute, e: Event, op: string)
    ensures AnswersOf(op)(Count(m, e)) == AnswersOf(op)(m) + IsAnswer(op)(e)
  {
    SampleChanges(m, e, op);
    if e.Attempt? {
      FairAddsAnswer(OpAt(m.ops, op).fair, e);
    }
  }

  // ---------------------------------------------- over any log of events

  /** Every counter the window sums is the number of logged events of the last ten minutes that bear on it. */
  lemma CountersMatchLog(log: seq<Stamped<Event>>, which: Counter, op: string, now: int)
    requires Ordered(log) && Latest(log) <= now
    ensures WindowSum(RingAfter(log, EMPTY_MINUTE, Count), now - SLOTS + 1, CounterOf(which, op)) ==
            LogSum(log, now - SLOTS + 1, WorthOf(which, op))
  {
    forall m, e
      ensures CounterOf(which, op)(Count(m, e)) == CounterOf(which, op)(m) + WorthOf(which, op)(e)
    {
      CountAddsWorth(m, e, which, op);
    }
    RingRefinesLog(log, EMPTY_MINUTE, Count, CounterOf(which, op), WorthOf(which, op), now);
  }

  lemma CollapsesMatchLog(log: seq<Stamped<Event>>, now: int)
    requires Ordered(log) && Latest(log) <= now
    ensures WindowSum(RingAfter(log, EMPTY_MINUTE, Count), now - SLOTS + 1, Collapses()) ==
            LogSum(log, now - SLOTS + 1, IsCollapse())
  {
    RingRefinesLog(log, EMPTY_MINUTE, Count, Collapses(), IsCollapse(), now);
  }

  lemma AnswersMatchLog(log: seq<Stamped<Event>>, op: string, now: int)
    requires Ordered(log) && Latest(log) <= now
    ensures WindowSum(RingAfter(log, EMPTY_MINUTE, Count), now - SLOTS + 1, AnswersOf(op)) ==
            LogSum(log, now - SLOTS + 1, IsAnswer(op))
  {
    forall m, e
      ensures AnswersOf(op)(Count(m, e)) == AnswersOf(op)(m) + IsAnswer(op)(e)
    {
      CountAddsAnswer(m, e, op);
    }
    assert SumOver({}, AnsweredIn(map[])) == 0;
    RingRefinesLog(log, EMPTY_MINUTE, Count, AnswersOf(op), IsAnswer(op), now);
  }

  function ClientTotals(): ClientMinute -> int {
    (m: ClientMinute) => m.total
  }

  function ClientFailures(): ClientMinute -> int {
    (m: ClientMinute) => m.failed
  }

  function IsClientFailure(): Answer -> int {
    (a: Answer) => if !a.fromChain && ClientFailed(a.status) then 1 else 0
  }

  function One(): Answer -> int {
    (a: Answer) => 1
  }

  /** The client share's two sums are the answers, and the failed answers, of the last ten minutes. */
  lemma ClientsMatchLog(log: seq<Stamped<Answer>>, now: int)
    requires Ordered(log) && Latest(log) <= now
    ensures WindowSum(RingAfter(log, EMPTY_CLIENT, CountClient), now - SLOTS + 1, ClientTotals()) ==
            LogSum(log, now - SLOTS + 1, One())
    ensures WindowSum(RingAfter(log, EMPTY_CLIENT, CountClient), now - SLOTS + 1, ClientFailures()) ==
            LogSum(log, now - SLOTS + 1, IsClientFailure())
  {
    RingRefinesLog(log, EMPTY_CLIENT, CountClient, ClientTotals(), One(), now);
    RingRefinesLog(log, EMPTY_CLIENT, CountClient, ClientFailures(), IsClientFailure(), now);
  }

  // ---------------------------------------------------------- conservation

  /** A fair sample adds up: its attempts are failures or answers, and chain errors are among the answers. */
  ghost predicate Conserves(s: Sample) {
    s.firsts - s.firstFails == TotalAnswered(s.methods) && ChainWithin(s.methods)
  }

  ghost predicate ChainWithin(methods: map<string, MethodCount>) {
    forall m :: 0 <= MethodAt(methods, m).chain <= MethodAt(methods, m).answered
  }

  ghost predicate MinuteConserves(m: Minute) {
    forall op :: Conserves(OpAt(m.ops, op).fair)
  }

  lemma FairConserves(s: Sample, e: Event)
    requires e.Attempt? && Conserves(s)
    ensures Conserves(CountFair(s, e))
  {
    FairAddsAnswer(s, e);
  }

  lemma CountConserves(m: Minute, e: Event)
    requires MinuteConserves(m)
    ensures MinuteConserves(Count(m, e))
  {
    forall op
      ensures Conserves(OpAt(Count(m, e).ops, op).fair)
    {
      SampleChanges(m, e, op);
      assert Conserves(OpAt(m.ops, op).fair);
      if e.Attempt? {
        FairConserves(OpAt(m.ops, op).fair, e);
      }
    }
  }

  lemma NothingConserves(m: Minute)
    requires m.ops == map[]
    ensures MinuteConserves(m)
  {
    forall op
      ensures Conserves(OpAt(m.ops, op).fair)
    {
      var s := OpAt(m.ops, op).fair;
      assert s.methods.Keys == {};
      assert SumOver(s.methods.Keys, AnsweredIn(s.methods)) == 0;
    }
  }

  ghost predicate RingConserves(ring: seq<Slot<Minute>>) {
    forall i :: 0 <= i < |ring| ==> MinuteConserves(ring[i].body)
  }

  lemma WriteConserves(ring: seq<Slot<Minute>>, minute: int, e: Event, zero: Minute)
    requires |ring| == SLOTS && RingConserves(ring) && zero.ops == map[]
    ensures RingConserves(Written(ring, minute, Count(Current(ring, minute, zero), e)))
  {
    var body := Current(ring, minute, zero);
    NothingConserves(zero);
    var from := CurrentSlot(ring, minute, zero);
    assert MinuteConserves(ring[from].body);
    CountConserves(body, e);
    var body' := Count(body, e);
    forall i | 0 <= i < SLOTS
      ensures MinuteConserves(Written(ring, minute, body')[i].body)
    {
      WrittenSlot(ring, minute, body', i);
      assert MinuteConserves(ring[i].body);
    }
  }

  /** In every slot of every ring, every operator's minute adds up. */
  lemma {:induction false} SlotsConserve(log: seq<Stamped<Event>>, zero: Minute)
    requires zero == EMPTY_MINUTE
    ensures RingConserves(RingAfter(log, zero, Count))
  {
    if log == [] {
      NothingConserves(zero);
    } else {
      var pre, e := log[..|log| - 1], log[|log| - 1];
      SlotsConserve(pre, zero);
      WriteConserves(RingAfter(pre, zero, Count), e.minute, e.event, zero);
    }
  }

  // --------------------------------------------------------------- the cap

  /** At most MAX_METHODS methods of its own, and one shared bucket. */
  predicate Capped(methods: map<string, MethodCount>) {
    |methods| <= MAX_METHODS || (OVERFLOW in methods && |methods| <= MAX_METHODS + 1)
  }

  ghost predicate MinuteCapped(m: Minute) {
    forall op :: Capped(OpAt(m.ops, op).fair.methods)
  }

  lemma FairCapped(s: Sample, e: Event)
    requires e.Attempt? && Capped(s.methods)
    ensures Capped(CountFair(s, e).methods)
  {
    if !FailedBy(e.attribution) {
      var after := CountAnswer(s.methods, e.meth, e.attribution == AttrBlockchain && !e.retried);
      assert after.Keys == s.methods.Keys + {Bucket(s.methods, e.meth)};
    }
  }

  lemma CountCapped(m: Minute, e: Event)
    requires MinuteCapped(m)
    ensures MinuteCapped(Count(m, e))
  {
    forall op
      ensures Capped(OpAt(Count(m, e).ops, op).fair.methods)
    {
      SampleChanges(m, e, op);
      assert Capped(OpAt(m.ops, op).fair.methods);
      if e.Attempt? {
        FairCapped(OpAt(m.ops, op).fair, e);
      }
    }
  }

  /** No slot ever holds more than MAX_METHODS + 1 methods for an operator. */
  lemma {:induction false} SlotsCapped(log: seq<Stamped<Event>>, i: nat, op: string)
    requires i < SLOTS
    ensures |OpAt(RingAfter(log, EMPTY_MINUTE, Count)[i].body.ops, op).fair.methods| <= MAX_METHODS + 1
    ensures Capped(OpAt(RingAfter(log, EMPTY_MINUTE, Count)[i].body.ops, op).fair.methods)
  {
    if log != [] {
      var pre, e := log[..|log| - 1], log[|log| - 1];
      SlotsCapped(pre, i, op);
      var b := Current(RingAfter(pre, EMPTY_MINUTE, Count), e.minute, EMPTY_MINUTE);
      forall o
        ensures Capped(OpAt(b.ops, o).fair.methods)
      {
        SlotsCapped(pre, e.minute % SLOTS, o);
      }
      CountCapped(b, e.event);
    }
  }
}
