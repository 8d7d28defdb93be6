/**
 The window's sums by method (autodrain/engine.go, window, operator and pool methods) against
 the log: what matchedChain compares is what was answered, as far as no slot had to share a bucket.
 */
module AutoDrainMethodSums {
  import opened Prelude
  import opened Sums
  import opened MinuteRing
  import opened AutoDrainCounts
  import opened AutoDrainLogs
  import opened AutoDrainMethods
  import opened AutoDrainWindow

  /** The two figures kept of a method: answers, and the chain errors among them that were delivered. */
  datatype Figure = OfAnswers | OfErrors

  function Read(c: MethodCount, f: Figure): int {
    match f
    case OfAnswers => c.answered
    case OfErrors => c.chain
  }

  function Hit(e: Event, f: Figure, op: string, meth: string): int {
    match f
    case OfAnswers => if Answers(e, op, meth) then 1 else 0
    case OfErrors => if Delivers(e, op, meth) then 1 else 0
  }

  function Hits(events: seq<Event>, f: Figure, op: string, meth: string): int {
    match f
    case OfAnswers => AnswersTo(events, op, meth)
    case OfErrors => ErrorsTo(events, op, meth)
  }

  // ------------------------------------------------- the log, slot by slot

  function Append(events: seq<Event>, e: Event): seq<Event> {
    events + [e]
  }

  /** The same ring, each slot with its events instead of their count. */
  function EventRing(log: seq<Stamped<Event>>): (ring: seq<Slot<seq<Event>>>)
    ensures |ring| == SLOTS
  {
    RingAfter(log, [], Append)
  }

  ghost predicate Alike(ring: seq<Slot<Minute>>, events: seq<Slot<seq<Event>>>) {
    && |ring| == |events|
    && forall i :: 0 <= i < |ring| ==> ring[i].minute == events[i].minute && ring[i].body == MinuteOf(events[i].body)
  }

  lemma WrittenAlike(ring: seq<Slot<Minute>>, events: seq<Slot<seq<Event>>>, minute: int, e: Event, zero: Minute)
    requires |ring| == SLOTS && Alike(ring, events) && zero == MinuteOf([])
    ensures Alike(Written(ring, minute, Count(Current(ring, minute, zero), e)), Written(events, minute, Append(Current(events, minute, []), e)))
  {
    OneEventMore(Current(events, minute, []), e);
  }

  lemma {:induction false} RingsAlike(log: seq<Stamped<Event>>)
    ensures Alike(PoolRing(log), EventRing(log))
    decreases |log|
  {
    if log != [] {
      var pre, e := log[..|log| - 1], log[|log| - 1];
      RingsAlike(pre);
      WrittenAlike(PoolRing(pre), EventRing(pre), e.minute, e.event, EMPTY_MINUTE);
    }
  }

  function HitsIn(f: Figure, op: string, meth: string): seq<Event> -> int {
    (events: seq<Event>) => Hits(events, f, op, meth)
  }

  function HitOf(f: Figure, op: string, meth: string): Event -> int {
    (e: Event) => Hit(e, f, op, meth)
  }

  lemma OneHitMore(events: seq<Event>, e: Event, f: Figure, op: string, meth: string)
    ensures Hits(events + [e], f, op, meth) == Hits(events, f, op, meth) + Hit(e, f, op, meth)
  {
    assert (events + [e])[..|events|] == events;
  }

  lemma HitsMatchLog(log: seq<Stamped<Event>>, f: Figure, op: string, meth: string, now: int)
    requires Ordered(log) && Latest(log) <= now
    ensures WindowSum(EventRing(log), now - SLOTS + 1, HitsIn(f, op, meth)) == LogSum(log, now - SLOTS + 1, HitOf(f, op, meth))
  {
    forall events, e
      ensures HitsIn(f, op, meth)(Append(events, e)) == HitsIn(f, op, meth)(events) + HitOf(f, op, meth)(e)
    {
      OneHitMore(events, e, f, op, meth);
    }
    RingRefinesLog(log, [], Append, HitsIn(f, op, meth), HitOf(f, op, meth), now);
  }

  // ------------------------------------------------------- slot against slot

  function MethodIn(f: Figure, op: string, meth: string): Minute -> int {
    (m: Minute) => Read(MethodAt(OpAt(m.ops, op).fair.methods, meth), f)
  }

  /** The minute had room for the method when an answer to it came, or there was nothing to keep. */
  predicate Kept(events: seq<Event>, f: Figure, op: string, meth: string) {
    CameWithRoom(events, op, meth) || Hits(events, f, op, meth) == 0
  }

  lemma {:induction false} HitsNatural(events: seq<Event>, f: Figure, op: string, meth: string)
    ensures 0 <= Hits(events, f, op, meth)
    decreases |events|
  {
    if events != [] {
      HitsNatural(events[..|events| - 1], f, op, meth);
    }
  }

  /** A slot's figure is at most the answers it had, and all of them exactly when the method is kept apart. */
  lemma {:induction false} SlotFigure(events: seq<Event>, f: Figure, op: string, meth: string)
    requires meth != OVERFLOW
    ensures MethodIn(f, op, meth)(MinuteOf(events)) <= Hits(events, f, op, meth)
    ensures MethodIn(f, op, meth)(MinuteOf(events)) == Hits(events, f, op, meth) <==> Kept(events, f, op, meth)
  {
    MethodsKeptApart(events, op, meth);
    ApartExactlyWhen(events, op, meth);
    HitsNatural(events, f, op, meth);
  }

  ghost predicate AllKept(events: seq<Slot<seq<Event>>>, oldest: int, f: Figure, op: string, meth: string) {
    forall i :: 0 <= i < |events| && events[i].minute >= oldest ==> Kept(events[i].body, f, op, meth)
  }

  lemma {:induction false} WindowFigure(ring: seq<Slot<Minute>>, events: seq<Slot<seq<Event>>>, oldest: int,
        f: Figure, op: string, meth: string)
    requires Alike(ring, events) && meth != OVERFLOW
    ensures WindowSum(ring, oldest, MethodIn(f, op, meth)) <= WindowSum(events, oldest, HitsIn(f, op, meth))
    ensures WindowSum(ring, oldest, MethodIn(f, op, meth)) == WindowSum(events, oldest, HitsIn(f, op, meth)) <==>
            AllKept(events, oldest, f, op, meth)
    decreases |ring|
  {
    if ring != [] {
      var n := |ring| - 1;
      WindowFigure(ring[..n], events[..n], oldest, f, op, meth);
      SlotFigure(events[n].body, f, op, meth);
      AllKeptSplits(events, oldest, f, op, meth);
    }
  }

  lemma AllKeptSplits(events: seq<Slot<seq<Event>>>, oldest: int, f: Figure, op: string, meth: string)
    requires events != []
    ensures var n := |events| - 1;
            AllKept(events, oldest, f, op, meth) <==>
            AllKept(events[..n], oldest, f, op, meth) && (events[n].minute >= oldest ==> Kept(events[n].body, f, op, meth))
  {
    var n := |events| - 1;
    assert forall i :: 0 <= i < n ==> events[..n][i] == events[i];
  }

  // ------------------------------------------------ the slots are the minutes

  /** A slot of the window on a minute has its events; a minute without a slot had none. */
  lemma {:induction false} SlotHoldsMinute(log: seq<Stamped<Event>>, minute: int, now: int)
    requires Ordered(log) && 0 <= minute && Latest(log) <= now < minute + SLOTS
    ensures var slot := EventRing(log)[minute % SLOTS];
            EventsAt(log, minute) == if slot.minute == minute then slot.body else []
    decreases |log|
  {
    if log != [] {
      var pre, last := log[..|log| - 1], log[|log| - 1];
      SlotHoldsMinute(pre, minute, now);
      if last.minute % SLOTS == minute % SLOTS && last.minute != minute {
        if minute < last.minute {
          SameResidue(minute, last.minute);
        }
        if EventsAt(log, minute) != [] {
          EventsWithin(log, minute);
        }
      }
    }
  }

  /** In every minute of the window the method was kept apart, or there was nothing to keep. */
  ghost predicate KeptApart(log: seq<Stamped<Event>>, oldest: int, f: Figure, op: string, meth: string) {
    forall minute :: oldest <= minute ==> Kept(EventsAt(log, minute), f, op, meth)
  }

  lemma KeptBySlots(log: seq<Stamped<Event>>, now: int, f: Figure, op: string, meth: string)
    requires Ordered(log) && Latest(log) <= now
    ensures AllKept(EventRing(log), now - SLOTS + 1, f, op, meth) <==> KeptApart(log, now - SLOTS + 1, f, op, meth)
  {
    var oldest, ring := now - SLOTS + 1, EventRing(log);
    if AllKept(ring, oldest, f, op, meth) {
      forall minute | oldest <= minute
        ensures Kept(EventsAt(log, minute), f, op, meth)
      {
        if EventsAt(log, minute) != [] {
          EventsWithin(log, minute);
          SlotHoldsMinute(log, minute, now);
          assert ring[minute % SLOTS].minute >= oldest;
        }
      }
    }
    if KeptApart(log, oldest, f, op, meth) {
      RingPlaced(log, [], Append);
      forall i | 0 <= i < |ring| && ring[i].minute >= oldest
        ensures Kept(ring[i].body, f, op, meth)
      {
        if ring[i].body != [] {
          SlotHoldsMinute(log, ring[i].minute, now);
          assert Kept(EventsAt(log, ring[i].minute), f, op, meth);
        }
      }
    }
  }

  // --------------------------------------------------------------- the totals

  function TotalRead(c: Option<OpCount>, meth: string, f: Figure): int {
    if c.None? then 0 else Read(MethodAt(c.value.fair.methods, meth), f)
  }

  lemma {:induction false} MethodTotalIsWindowSum(ring: seq<Slot<Minute>>, oldest: int, op: string, meth: string,
        f: Figure)
    ensures TotalRead(WindowTotal(ring, oldest, op), meth, f) == WindowSum(ring, oldest, MethodIn(f, op, meth))
    decreases |ring|
  {
    if ring != [] {
      MethodTotalIsWindowSum(ring[..|ring| - 1], oldest, op, meth, f);
    }
  }

  /**
   The window's figure for an operator's method is at most the logged one of the last ten
   minutes, and equal to it exactly when each of those minutes had room for the method.
   */
  lemma MethodTotalsMatchLog(log: seq<Stamped<Event>>, now: int, totals: map<string, OpCount>, f: Figure,
        op: string, meth: string)
    requires Ordered(log) && Latest(log) <= now && Totals(totals, PoolRing(log), now - SLOTS + 1) && meth != OVERFLOW
    ensures var total, logged := TotalRead(Lookup(totals, op), meth, f), LogSum(log, now - SLOTS + 1, HitOf(f, op, meth));
            total <= logged && (total == logged <==> KeptApart(log, now - SLOTS + 1, f, op, meth))
  {
    var oldest := now - SLOTS + 1;
    assert Lookup(totals, op) == WindowTotal(PoolRing(log), oldest, op);
    MethodTotalIsWindowSum(PoolRing(log), oldest, op, meth, f);
    RingsAlike(log);
    WindowFigure(PoolRing(log), EventRing(log), oldest, f, op, meth);
    HitsMatchLog(log, f, op, meth, now);
    KeptBySlots(log, now, f, op, meth);
  }

  // ----------------------------------------------------------------- the pool

  /** Somebody's answer to the method, or error. */
  function AnyHit(f: Figure, meth: string): Event -> int {
    (e: Event) => if e.Attempt? then Hit(e, f, e.op, meth) else 0
  }

  /** Each operator's logged figure. */
  function LoggedBy(log: seq<Stamped<Event>>, oldest: int, f: Figure, meth: string): string -> int {
    (op: string) => LogSum(log, oldest, HitOf(f, op, meth))
  }

  function OneFor(who: string, n: int): string -> int {
    (op: string) => if op == who then n else 0
  }

  lemma {:induction false} SumOfOne(names: set<string>, who: string, n: int)
    requires who in names
    ensures SumOver(names, OneFor(who, n)) == n
  {
    SumTakesOut(names, OneFor(who, n), who);
    SumPad({}, names - {who}, OneFor(who, n));
  }

  ghost predicate Names(log: seq<Stamped<Event>>, names: set<string>) {
    forall i :: 0 <= i < |log| && log[i].event.Attempt? ==> log[i].event.op in names
  }

  lemma {:induction false} NothingLogged(names: set<string>, oldest: int, f: Figure, meth: string)
    ensures SumOver(names, LoggedBy([], oldest, f, meth)) == 0
    decreases |names|
  {
    SumPad({}, names, LoggedBy([], oldest, f, meth));
  }

  lemma {:induction false} EventSums(names: set<string>, e: Event, f: Figure, meth: string, live: bool, g: string -> int, h: string -> int)
    requires e.Attempt? ==> e.op in names
    requires forall op :: h(op) == g(op) + if live then Hit(e, f, op, meth) else 0
    ensures SumOver(names, h) == SumOver(names, g) + if live then AnyHit(f, meth)(e) else 0
  {
    if live && e.Attempt? {
      var one := OneFor(e.op, Hit(e, f, e.op, meth));
      SumOfOne(names, e.op, Hit(e, f, e.op, meth));
      assert forall op :: one(op) == Hit(e, f, op, meth);
      SumAdd(names, g, one, h);
    } else {
      SumSame(names, h, g);
    }
  }

  /** Operator by operator or all at once, the log holds the same answers. */
  lemma {:induction false} OperatorsAddUp(log: seq<Stamped<Event>>, oldest: int, names: set<string>, f: Figure,
        meth: string)
    requires Names(log, names)
    ensures SumOver(names, LoggedBy(log, oldest, f, meth)) == LogSum(log, oldest, AnyHit(f, meth))
    decreases |log|
  {
    if log == [] {
      NothingLogged(names, oldest, f, meth);
    } else {
      var pre, e := log[..|log| - 1], log[|log| - 1];
      OperatorsAddUp(pre, oldest, names, f, meth);
      EventSums(names, e.event, f, meth, e.minute >= oldest, LoggedBy(pre, oldest, f, meth), LoggedBy(log, oldest, f, meth));
    }
  }

  lemma {:induction false} LogSumLe(log: seq<Stamped<Event>>, oldest: int, v: Event -> int, w: Event -> int)
    requires forall e :: 0 <= v(e) <= w(e)
    ensures 0 <= LogSum(log, oldest, v) <= LogSum(log, oldest, w)
    decreases |log|
  {
    if log != [] {
      LogSumLe(log[..|log| - 1], oldest, v, w);
    }
  }

  /** An operator without a total answered nothing in the window. */
  lemma UnseenAnsweredNothing(log: seq<Stamped<Event>>, now: int, totals: map<string, OpCount>, f: Figure,
        op: string, meth: string)
    requires Ordered(log) && Latest(log) <= now && Totals(totals, PoolRing(log), now - SLOTS + 1) && op !in totals
    ensures LogSum(log, now - SLOTS + 1, HitOf(f, op, meth)) == 0
  {
    var oldest := now - SLOTS + 1;
    assert Lookup(totals, op) == WindowTotal(PoolRing(log), oldest, op);
    TotalIsWindowSum(PoolRing(log), oldest, op, Firsts);
    CountersMatchLog(log, Firsts, op, now);
    LogSumLe(log, oldest, HitOf(f, op, meth), WorthOf(Firsts, op));
  }

  lemma TotalsAddUp(log: seq<Stamped<Event>>, now: int, totals: map<string, OpCount>, f: Figure, meth: string)
    requires Ordered(log) && Latest(log) <= now && Totals(totals, PoolRing(log), now - SLOTS + 1)
    ensures SumOver(totals.Keys, LoggedBy(log, now - SLOTS + 1, f, meth)) == LogSum(log, now - SLOTS + 1, AnyHit(f, meth))
  {
    var oldest := now - SLOTS + 1;
    var all := totals.Keys + set i | 0 <= i < |log| && log[i].event.Attempt? :: log[i].event.op;
    OperatorsAddUp(log, oldest, all, f, meth);
    forall op | op in all && op !in totals.Keys
      ensures LoggedBy(log, oldest, f, meth)(op) == 0
    {
      UnseenAnsweredNothing(log, now, totals, f, op, meth);
    }
    SumPad(totals.Keys, all, LoggedBy(log, oldest, f, meth));
  }

  function ReadBy(totals: map<string, OpCount>, meth: string, f: Figure): string -> int {
    (op: string) => TotalRead(Lookup(totals, op), meth, f)
  }

  lemma PoolIsSum(pool: map<string, MethodCount>, totals: map<string, OpCount>, meth: string, f: Figure)
    requires IsPoolAt(pool, totals, meth)
    ensures Read(MethodAt(pool, meth), f) == SumOver(totals.Keys, ReadBy(totals, meth, f))
  {
    SumSame(totals.Keys, ReadBy(totals, meth, f), if f == OfAnswers then AnsweredBy(totals, meth) else ChainBy(totals, meth));
  }

  /**
   So with the pool's figure: at most everybody's logged one, and equal to it exactly when every
   operator's live slots keep the method apart.
   */
  lemma PoolTotalsMatchLog(log: seq<Stamped<Event>>, now: int, totals: map<string, OpCount>,
        pool: map<string, MethodCount>, f: Figure, meth: string)
    requires Ordered(log) && Latest(log) <= now && Totals(totals, PoolRing(log), now - SLOTS + 1) && IsPoolAt(pool, totals, meth)
    requires meth != OVERFLOW
    ensures var total, logged := Read(MethodAt(pool, meth), f), LogSum(log, now - SLOTS + 1, AnyHit(f, meth));
            && total <= logged
            && (total == logged <==> forall op :: op in totals ==> KeptApart(log, now - SLOTS + 1, f, op, meth))
  {
    var oldest := now - SLOTS + 1;
    PoolIsSum(pool, totals, meth, f);
    TotalsAddUp(log, now, totals, f, meth);
    var g, h := ReadBy(totals, meth, f), LoggedBy(log, oldest, f, meth);
    forall op
      ensures g(op) <= h(op) && (g(op) == h(op) <==> KeptApart(log, oldest, f, op, meth))
    {
      MethodTotalsMatchLog(log, now, totals, f, op, meth);
    }
    SumLeEqual(totals.Keys, g, h);
  }

  // ------------------------------------------------------- nothing was shared

  /** In no minute of the window did an operator answer more methods than a slot keeps apart. */
  ghost predicate NoneShared(log: seq<Stamped<Event>>, oldest: int) {
    forall minute, op :: oldest <= minute ==> FewMethods(EventsAt(log, minute), op)
  }

  predicate FewMethods(events: seq<Event>, op: string) {
    Few(AnsweredMethods(events, op))
  }

  lemma NoneSharedKeeps(log: seq<Stamped<Event>>, oldest: int, f: Figure, op: string, meth: string)
    requires NoneShared(log, oldest) && meth != OVERFLOW
    ensures KeptApart(log, oldest, f, op, meth)
  {
    forall minute | oldest <= minute
      ensures Kept(EventsAt(log, minute), f, op, meth)
    {
      var events := EventsAt(log, minute);
      assert FewMethods(events, op);
      SharedExactlyWhen(events, op);
      MethodsKeptApart(events, op, meth);
      ApartExactlyWhen(events, op, meth);
    }
  }
}
