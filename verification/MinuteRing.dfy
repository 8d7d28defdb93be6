/**
 The ten-minute window as a ring of one-minute slots (autodrain/engine.go, slot and
 clientSlot): a slot is found by minute modulo ten and reset only when it is next
 written. Generic in what a slot holds and in the events that change it.
 */
module MinuteRing {

  const SLOTS := 10

  datatype Slot<B> = Slot(minute: int, body: B)

  /** An accepted hook call and the minute it came in. */
  datatype Stamped<E> = Stamped(minute: int, event: E)

  /** Go's zero ring: every slot on minute 0, empty. */
  function ZeroRing<B>(zero: B): seq<Slot<B>> {
    seq(SLOTS, i => Slot(0, zero))
  }

  /** The body the slot for minute m starts from: its own, or empty when the slot last held another minute. */
  function Current<B>(ring: seq<Slot<B>>, m: int, zero: B): B
    requires |ring| == SLOTS
  {
    if ring[m % SLOTS].minute == m then ring[m % SLOTS].body else zero
  }

  function Written<B>(ring: seq<Slot<B>>, m: int, body: B): seq<Slot<B>>
    requires |ring| == SLOTS
  {
    ring[m % SLOTS := Slot(m, body)]
  }

  /** Writing leaves the other slots; what it starts from is a slot's body or empty. */
  lemma WrittenSlot<B>(ring: seq<Slot<B>>, m: int, body: B, i: nat)
    requires |ring| == SLOTS && i < SLOTS
    ensures Written(ring, m, body)[i].body == body || Written(ring, m, body)[i] == ring[i]
  {
  }

  lemma CurrentSlot<B>(ring: seq<Slot<B>>, m: int, zero: B) returns (i: nat)
    requires |ring| == SLOTS
    ensures i < SLOTS && (Current(ring, m, zero) == ring[i].body || Current(ring, m, zero) == zero)
  {
    i := m % SLOTS;
  }

  /** The ring after a log of events. */
  function RingAfter<B, E>(log: seq<Stamped<E>>, zero: B, apply: (B, E) -> B): (ring: seq<Slot<B>>)
    ensures |ring| == SLOTS
  {
    if log == [] then ZeroRing(zero)
    else
      var ring, e := RingAfter(log[..|log| - 1], zero, apply), log[|log| - 1];
      Written(ring, e.minute, apply(Current(ring, e.minute, zero), e.event))
  }

  /** A quantity summed over the slots not older than `oldest`. */
  function WindowSum<B>(ring: seq<Slot<B>>, oldest: int, measure: B -> int): int {
    if ring == [] then 0
    else
      var s := ring[|ring| - 1];
      WindowSum(ring[..|ring| - 1], oldest, measure) + (if s.minute >= oldest then measure(s.body) else 0)
  }

  /** The same quantity counted from the log. */
  function LogSum<E>(log: seq<Stamped<E>>, oldest: int, weight: E -> int): int {
    if log == [] then 0
    else
      var e := log[|log| - 1];
      LogSum(log[..|log| - 1], oldest, weight) + (if e.minute >= oldest then weight(e.event) else 0)
  }

  /** Minutes count from the epoch and do not go back. */
  ghost predicate Ordered<E>(log: seq<Stamped<E>>) {
    && (forall i :: 0 <= i < |log| ==> 0 <= log[i].minute)
    && forall i, j :: 0 <= i < j < |log| ==> log[i].minute <= log[j].minute
  }

  function Latest<E>(log: seq<Stamped<E>>): int {
    if log == [] then 0 else log[|log| - 1].minute
  }

  /** Every slot holds a past minute of its own residue, or has never been written. */
  ghost predicate Placed<B(!new)>(ring: seq<Slot<B>>, latest: int, zero: B) {
    && |ring| == SLOTS
    && forall i :: 0 <= i < SLOTS ==>
         ring[i] == Slot(0, zero) || (ring[i].minute % SLOTS == i && 0 <= ring[i].minute <= latest)
  }

  lemma {:induction false} RingPlaced<B(!new), E>(log: seq<Stamped<E>>, zero: B, apply: (B, E) -> B)
    requires Ordered(log)
    ensures Placed(RingAfter(log, zero, apply), Latest(log), zero)
  {
    if log != [] {
      RingPlaced(log[..|log| - 1], zero, apply);
    }
  }

  /** Writing one slot changes a window sum by what that slot gained. */
  lemma {:induction false} WrittenSum<B>(ring: seq<Slot<B>>, i: nat, s: Slot<B>, oldest: int, measure: B -> int)
    requires i < |ring|
    ensures WindowSum(ring[i := s], oldest, measure) ==
            WindowSum(ring, oldest, measure)
            - (if ring[i].minute >= oldest then measure(ring[i].body) else 0)
            + (if s.minute >= oldest then measure(s.body) else 0)
    decreases |ring|
  {
    var n := |ring| - 1;
    if i == n {
      assert ring[i := s][..n] == ring[..n];
    } else {
      assert ring[i := s][..n] == ring[..n][i := s];
      WrittenSum(ring[..n], i, s, oldest, measure);
    }
  }

  lemma {:induction false} ZeroSum<B>(ring: seq<Slot<B>>, oldest: int, measure: B -> int, zero: B)
    requires measure(zero) == 0 && forall i :: 0 <= i < |ring| ==> ring[i].body == zero
    ensures WindowSum(ring, oldest, measure) == 0
    decreases |ring|
  {
    if ring != [] {
      ZeroSum(ring[..|ring| - 1], oldest, measure, zero);
    }
  }

  lemma SameResidue(a: int, b: int)
    requires a < b && a % SLOTS == b % SLOTS
    ensures a <= b - SLOTS
  {
  }

  /** One event moves a window sum by its weight: what its slot held before is itself, too old, or nothing. */
  lemma OneMore<B(!new), E>(
    ring: seq<Slot<B>>, latest: int, e: Stamped<E>, zero: B, apply: (B, E) -> B, measure: B -> int, weight: E -> int, now: int)
    requires Placed(ring, latest, zero) && 0 <= latest <= e.minute <= now && measure(zero) == 0
    requires measure(apply(Current(ring, e.minute, zero), e.event)) == measure(Current(ring, e.minute, zero)) + weight(e.event)
    ensures WindowSum(Written(ring, e.minute, apply(Current(ring, e.minute, zero), e.event)), now - SLOTS + 1, measure) ==
            WindowSum(ring, now - SLOTS + 1, measure) + (if e.minute >= now - SLOTS + 1 then weight(e.event) else 0)
  {
    var oldest, i := now - SLOTS + 1, e.minute % SLOTS;
    WrittenSum(ring, i, Slot(e.minute, apply(Current(ring, e.minute, zero), e.event)), oldest, measure);
    if ring[i].minute != e.minute && ring[i].body != zero {
      SameResidue(ring[i].minute, e.minute);
    }
  }

  /**
   The ring refines the log: every sum over the slots of the last ten minutes is
   the sum over the logged events of those minutes, although slots are reused
   modulo ten and reset only on write. `measure` may be any quantity to which
   each event adds its own weight; `now` is any minute not before the last event.
   */
  lemma {:induction false} RingRefinesLog<B(!new), E(!new)>(
    log: seq<Stamped<E>>, zero: B, apply: (B, E) -> B, measure: B -> int, weight: E -> int, now: int)
    requires Ordered(log) && Latest(log) <= now
    requires measure(zero) == 0 && forall b, e :: measure(apply(b, e)) == measure(b) + weight(e)
    ensures WindowSum(RingAfter(log, zero, apply), now - SLOTS + 1, measure) == LogSum(log, now - SLOTS + 1, weight)
  {
    var oldest := now - SLOTS + 1;
    if log == [] {
      ZeroSum(ZeroRing(zero), oldest, measure, zero);
    } else {
      var pre, e := log[..|log| - 1], log[|log| - 1];
      RingRefinesLog(pre, zero, apply, measure, weight, now);
      RingPlaced(pre, zero, apply);
      OneMore(RingAfter(pre, zero, apply), Latest(pre), e, zero, apply, measure, weight, now);
    }
  }
}
