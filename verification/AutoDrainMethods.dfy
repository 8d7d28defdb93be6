/**
 What one minute keeps per method (autodrain/engine.go, opCount.method): methods in the
 order they come, up to the cap, each counted apart from the others; the rest share a bucket.
 */
module AutoDrainMethods {
  import opened Prelude
  import opened MinuteRing
  import opened AutoDrainCounts

  /** A minute's count after its events. */
  function MinuteOf(events: seq<Event>): Minute
    decreases |events|
  {
    if events == [] then EMPTY_MINUTE else Count(MinuteOf(events[..|events| - 1]), events[|events| - 1])
  }

  /** The operator answered the method, on a first or probation attempt. */
  predicate Answers(e: Event, op: string, meth: string) {
    e.Attempt? && e.op == op && Fair(e.kind) && !FailedBy(e.attribution) && e.meth == meth
  }

  /** With an error of the chain's that the client received. */
  predicate Delivers(e: Event, op: string, meth: string) {
    Answers(e, op, meth) && e.attribution == AttrBlockchain && !e.retried
  }

  function AnswersTo(events: seq<Event>, op: string, meth: string): int
    decreases |events|
  {
    if events == [] then 0
    else AnswersTo(events[..|events| - 1], op, meth) + if Answers(events[|events| - 1], op, meth) then 1 else 0
  }

  function ErrorsTo(events: seq<Event>, op: string, meth: string): int
    decreases |events|
  {
    if events == [] then 0
    else ErrorsTo(events[..|events| - 1], op, meth) + if Delivers(events[|events| - 1], op, meth) then 1 else 0
  }

  function MethodsOf(events: seq<Event>, op: string): map<string, MethodCount> {
    OpAt(MinuteOf(events).ops, op).fair.methods
  }

  /**
   A method of its own has its exact count; one without has no answers, or came when the cap was
   reached and went to the shared bucket.
   */
  ghost predicate Apart(methods: map<string, MethodCount>, answers: int, errors: int, meth: string) {
    if meth in methods then methods[meth].answered == answers && methods[meth].chain == errors
    else 0 == errors == answers || (|methods| >= MAX_METHODS && OVERFLOW in methods)
  }

  lemma AnswerApart(methods: map<string, MethodCount>, name: string, chain: bool, meth: string, answers: int,
        errors: int)
    requires Apart(methods, answers, errors, meth) && meth != OVERFLOW
    ensures Apart(CountAnswer(methods, name, chain),
                  if name == meth then answers + 1 else answers, if name == meth && chain then errors + 1 else errors, meth)
  {
    var after := CountAnswer(methods, name, chain);
    assert after.Keys == methods.Keys + {Bucket(methods, name)};
  }

  lemma FairApart(s: Sample, e: Event, meth: string, answers: int, errors: int)
    requires e.Attempt? && Fair(e.kind) && Apart(s.methods, answers, errors, meth) && meth != OVERFLOW
    ensures Apart(CountFair(s, e).methods,
                  answers + (if Answers(e, e.op, meth) then 1 else 0), errors + (if Delivers(e, e.op, meth) then 1 else 0), meth)
  {
    if !FailedBy(e.attribution) {
      AnswerApart(s.methods, e.meth, e.attribution == AttrBlockchain && !e.retried, meth, answers, errors);
    }
  }

  /** In every minute every method kept apart has exactly its own answers and delivered chain errors. */
  lemma {:induction false} MethodsKeptApart(events: seq<Event>, op: string, meth: string)
    requires meth != OVERFLOW
    ensures Apart(MethodsOf(events, op), AnswersTo(events, op, meth), ErrorsTo(events, op, meth), meth)
    decreases |events|
  {
    if events != [] {
      var pre, e := events[..|events| - 1], events[|events| - 1];
      MethodsKeptApart(pre, op, meth);
      SampleChanges(MinuteOf(pre), e, op);
      if e.Attempt? && e.op == op && Fair(e.kind) {
        FairApart(OpAt(MinuteOf(pre).ops, op).fair, e, meth, AnswersTo(pre, op, meth), ErrorsTo(pre, op, meth));
      }
    }
  }

  // ------------------------------------------------- which methods those are

  /** The methods the operator answered. */
  function AnsweredMethods(events: seq<Event>, op: string): set<string>
    decreases |events|
  {
    if events == [] then {}
    else
      var e := events[|events| - 1];
      AnsweredMethods(events[..|events| - 1], op) + if e.Attempt? && Answers(e, op, e.meth) then {e.meth} else {}
  }

  /** One of the operator's answers to the method came while it had answered fewer methods than the cap. */
  predicate CameWithRoom(events: seq<Event>, op: string, meth: string) {
    exists i :: 0 <= i < |events| && RoomAt(events, op, meth, i)
  }

  predicate RoomAt(events: seq<Event>, op: string, meth: string, i: nat)
    requires i < |events|
  {
    Answers(events[i], op, meth) && |AnsweredMethods(events[..i], op)| < MAX_METHODS
  }

  /** No more methods than the cap, and none named like the shared bucket. */
  predicate Few(answered: set<string>) {
    |answered| <= MAX_METHODS && OVERFLOW !in answered
  }

  /** What the buckets tell of the methods answered. */
  ghost predicate Tells(keys: set<string>, answered: set<string>) {
    && (|answered| < MAX_METHODS || Few(answered) ==> keys == answered)
    && (|answered| >= MAX_METHODS ==> |keys| >= MAX_METHODS)
    && (!Few(answered) ==> OVERFLOW in keys || |answered| < MAX_METHODS)
  }

  lemma OneMoreTells(keys: set<string>, answered: set<string>, name: string)
    requires Tells(keys, answered)
    ensures Tells(keys + {if name !in keys && |keys| >= MAX_METHODS then OVERFLOW else name}, answered + {name})
  {
    var bucket := if name !in keys && |keys| >= MAX_METHODS then OVERFLOW else name;
    SubsetSize(answered, answered + {name});
    SubsetSize(keys, keys + {bucket});
    if name in answered {
      assert answered + {name} == answered;
    }
  }

  lemma AnswerTells(methods: map<string, MethodCount>, answered: set<string>, name: string, chain: bool)
    requires Tells(methods.Keys, answered)
    ensures Tells(CountAnswer(methods, name, chain).Keys, answered + {name})
  {
    assert |methods| == |methods.Keys|;
    OneMoreTells(methods.Keys, answered, name);
    assert CountAnswer(methods, name, chain).Keys == methods.Keys + {Bucket(methods, name)};
  }

  lemma MethodsStep(events: seq<Event>, op: string)
    requires events != []
    ensures var pre, e := events[..|events| - 1], events[|events| - 1];
            MethodsOf(events, op) ==
            if e.Attempt? && Answers(e, op, e.meth)
            then CountAnswer(MethodsOf(pre, op), e.meth, e.attribution == AttrBlockchain && !e.retried) else MethodsOf(pre, op)
  {
    SampleChanges(MinuteOf(events[..|events| - 1]), events[|events| - 1], op);
  }

  /** Up to the cap the buckets are the methods answered; past it, there is a shared one. */
  lemma {:induction false} BucketsTell(events: seq<Event>, op: string)
    ensures Tells(MethodsOf(events, op).Keys, AnsweredMethods(events, op))
    decreases |events|
  {
    if events != [] {
      var pre, e := events[..|events| - 1], events[|events| - 1];
      BucketsTell(pre, op);
      MethodsStep(events, op);
      if e.Attempt? && Answers(e, op, e.meth) {
        AnswerTells(MethodsOf(pre, op), AnsweredMethods(pre, op), e.meth, e.attribution == AttrBlockchain && !e.retried);
      }
    }
  }

  /** A minute has a shared bucket exactly when the operator answered more methods than the cap, or one of its name. */
  lemma {:induction false} SharedExactlyWhen(events: seq<Event>, op: string)
    ensures OVERFLOW in MethodsOf(events, op) <==> !Few(AnsweredMethods(events, op))
  {
    BucketsTell(events, op);
  }

  lemma {:induction false} RoomBefore(events: seq<Event>, op: string, meth: string, n: nat, i: nat)
    requires i < n <= |events|
    ensures RoomAt(events[..n], op, meth, i) <==> RoomAt(events, op, meth, i)
  {
    assert events[..n][..i] == events[..i];
  }

  lemma {:induction false} RoomSplits(events: seq<Event>, op: string, meth: string)
    requires events != []
    ensures var n := |events| - 1;
            CameWithRoom(events, op, meth) <==> CameWithRoom(events[..n], op, meth) || RoomAt(events, op, meth, n)
  {
    var n := |events| - 1;
    forall i | 0 <= i < n
      ensures RoomAt(events[..n], op, meth, i) <==> RoomAt(events, op, meth, i)
    {
      RoomBefore(events, op, meth, n, i);
    }
  }

  /** A method has a bucket of its own exactly when one of its answers came with room for one. */
  lemma {:induction false} ApartExactlyWhen(events: seq<Event>, op: string, meth: string)
    requires meth != OVERFLOW
    ensures meth in MethodsOf(events, op) <==> CameWithRoom(events, op, meth)
    decreases |events|
  {
    if events != [] {
      var pre := events[..|events| - 1];
      ApartExactlyWhen(pre, op, meth);
      MethodsStep(events, op);
      RoomSplits(events, op, meth);
      BucketsTell(pre, op);
      assert |MethodsOf(pre, op)| == |MethodsOf(pre, op).Keys|;
    }
  }

  // ------------------------------------------------------ a log's minutes

  /** The events of one minute. */
  function EventsAt(log: seq<Stamped<Event>>, minute: int): seq<Event>
    decreases |log|
  {
    if log == [] then []
    else
      var last := log[|log| - 1];
      EventsAt(log[..|log| - 1], minute) + if last.minute == minute then [last.event] else []
  }

  lemma {:induction false} EventsWithin(log: seq<Stamped<Event>>, minute: int)
    requires Ordered(log) && EventsAt(log, minute) != []
    ensures 0 <= minute <= Latest(log)
    decreases |log|
  {
    var pre, last := log[..|log| - 1], log[|log| - 1];
    if last.minute != minute {
      assert EventsAt(log, minute) == EventsAt(pre, minute) + [];
      EventsWithin(pre, minute);
    }
  }

  lemma {:induction false} OneEventMore(events: seq<Event>, e: Event)
    ensures MinuteOf(events + [e]) == Count(MinuteOf(events), e)
  {
    assert (events + [e])[..|events|] == events;
  }

  // --------------------------------------------------------------------- picks

  /** Each served operator is picked, and one already seen is not. */
  lemma {:induction false} PickedNames(served: seq<string>, seen: seq<string>, op: string)
    ensures Occurrences(Picked(served, seen), op) > 0 <==> op in served && op !in seen
    ensures Occurrences(Picked(served, seen), op) >= 0
    decreases |served|
  {
    if served != [] {
      var seen' := if served[0] in seen || |seen| >= MAX_SEEN then seen else seen + [served[0]];
      PickedNames(served[1..], seen', op);
      assert served == [served[0]] + served[1..];
      if served[0] !in seen {
        OccurrencesOfFirst(served[0], Picked(served[1..], seen'), op);
      }
    }
  }

  lemma {:induction false} OccurrencesOfFirst(x: string, rest: seq<string>, op: string)
    ensures Occurrences([x] + rest, op) == (if x == op then 1 else 0) + Occurrences(rest, op)
  {
    assert ([x] + rest)[1..] == rest;
  }

  function Names(served: seq<string>): set<string> {
    set x | x in served
  }

  /** With at most four operators in all, none is picked twice. */
  lemma {:induction false} PickedOnce(served: seq<string>, seen: seq<string>, op: string)
    requires |Names(seen)| == |seen| && |Names(seen) + Names(served)| <= MAX_SEEN
    ensures Occurrences(Picked(served, seen), op) == if op in served && op !in seen then 1 else 0
    decreases |served|
  {
    if served != [] {
      var x, rest := served[0], served[1..];
      assert served == [x] + rest;
      if x in seen {
        assert Names(seen) + Names(served) == Names(seen) + Names(rest);
        PickedOnce(rest, seen, op);
      } else {
        RoomForOne(served, seen);
        PickedOnce(rest, seen + [x], op);
        OccurrencesOfFirst(x, Picked(rest, seen + [x]), op);
      }
    }
  }

  lemma RoomForOne(served: seq<string>, seen: seq<string>)
    requires served != [] && served[0] !in seen
    requires |Names(seen)| == |seen| && |Names(seen) + Names(served)| <= MAX_SEEN
    ensures var more := seen + [served[0]];
            |seen| < MAX_SEEN && |Names(more)| == |more| && Names(more) + Names(served[1..]) == Names(seen) + Names(served)
  {
    var x := served[0];
    assert served == [x] + served[1..];
    assert Names(seen + [x]) == Names(seen) + {x};
    var all := Names(seen) + Names(served);
    SubsetSize(Names(seen) + {x}, all);
  }
}
