/**
 What the fleet cap leaves out (autodrain/engine.go, liveAutoFleet): it counts the services
 the instance has a pool for. It holds over every run exactly when the instance found no live
 auto drain elsewhere.
 */
module AutoDrainFleet {
  import opened Prelude
  import opened DrainKeys
  import opened AutoDrainDecisions
  import opened AutoDrainLimits

  /** A drain adds one to the fleet, so five hold after it exactly when fewer than five were live, known or not. */
  lemma DrainAddsOne(w: World, step: Step)
    requires Keyed(w.drains) && WillDrain(w, step) && step.write != FailedAbsent
    ensures |LiveAutos(Do(w, step).drains, w.clock)| == |LiveAutos(w.drains, w.clock)| + 1
    ensures |LiveAutos(Do(w, step).drains, w.clock)| <= MAX_LIVE_FLEET <==> |LiveAutos(w.drains, w.clock)| < MAX_LIVE_FLEET
  {
    WillDrainMeans(w, step);
    var e := NewEntry(step.k, w.clock, step.maxDrain, step.note);
    LowerIdempotent(step.k.operator);
    assert Covers(e.key, step.k);
    assert !IsLive(w.drains, e.key, w.clock);
    assert LiveAutos(Do(w, step).drains, w.clock) == LiveAutos(w.drains, w.clock) + {e.key};
  }

  // ------------------------------------------------------------- a fresh name

  lemma {:induction false} LongerThanAll(names: set<string>) returns (longer: string)
    ensures forall x :: x in names ==> |x| < |longer|
    decreases |names|
  {
    longer := "";
    if names != {} {
      var x :| x in names;
      var rest := LongerThanAll(names - {x});
      longer := rest + x + "+";
      forall y | y in names
        ensures |y| < |longer|
      {
        assert y != x ==> y in names - {x};
      }
    }
  }

  /** A service no drain is on. */
  lemma UnusedService(drains: Drains) returns (service: string)
    ensures forall key :: key in drains ==> key.service != service
  {
    var services := set key | key in drains :: key.service;
    service := LongerThanAll(services);
    forall key | key in drains
      ensures key.service != service
    {
      assert key.service in services;
    }
  }

  // -------------------------------------------------------------- filling up

  /** Evidence no gate stops. */
  function Clear(): Evidence {
    Evidence(50, 0.05, 0.0, 0, 0.0, 0, 0.0, false, true)
  }

  function FailingDrain(service: string): Step {
    Decide(Key(service, "op", "rpc"), Clear(), true, 0, "", FailedInstalled)
  }

  /** A fresh engine with a pool on an unused service drains there while it knows of fewer than five. */
  lemma FreshDrains(w: World, service: string)
    requires Keyed(w.drains) && w.memory == Memory(map[], map[], map[], []) && |KnownAutos(w.drains, w.pooled, w.clock)| < MAX_LIVE_FLEET
    requires forall key :: key in w.drains ==> key.service != service
    ensures WillDrain(w, FailingDrain(service))
  {
    var k := Key(service, "op", "rpc");
    assert PoolAutos(w.drains, service, "rpc", w.clock) == {};
    FindsIffCovered(w.drains, k, w.clock);
  }

  lemma KnownGrows(w: World, service: string)
    requires service in w.pooled && forall key :: key in w.drains ==> key.service != service
    requires WillDrain(w, FailingDrain(service))
    ensures var w' := Do(w, FailingDrain(service));
            && w'.memory == w.memory && w'.clock == w.clock
            && |KnownAutos(w'.drains, w'.pooled, w'.clock)| == |KnownAutos(w.drains, w.pooled, w.clock)| + 1
            && UnknownAutos(w) <= UnknownAutos(w')
  {
    var w' := Do(w, FailingDrain(service));
    var e := NewEntry(Key(service, "op", "rpc"), w.clock, 0, "");
    assert w'.drains == w.drains[e.key := e];
    assert IsAuto(e) && e.until > w.clock;
    assert KnownAutos(w'.drains, w'.pooled, w'.clock) == KnownAutos(w.drains, w.pooled, w.clock) + {e.key};
  }

  /** A pool on an unused service makes nothing known. */
  lemma PoolElsewhere(w: World, service: string)
    requires forall key :: key in w.drains ==> key.service != service
    ensures var w' := Do(w, SeePool(service));
            KnownAutos(w'.drains, w'.pooled, w'.clock) == KnownAutos(w.drains, w.pooled, w.clock) && UnknownAutos(w') == UnknownAutos(w)
  {
  }

  lemma {:induction false} FirstStep(w: World, first: Step, rest: seq<Step>)
    requires Enabled(w, first) && Possible(Do(w, first), rest)
    ensures Possible(w, [first] + rest) && After(w, [first] + rest) == After(Do(w, first), rest)
    decreases |rest|
  {
    var all := [first] + rest;
    if rest == [] {
      assert all[..|all| - 1] == [] && all[|all| - 1] == first;
      assert Possible(w, []) && After(w, []) == w;
    } else {
      FirstStep(w, first, rest[..|rest| - 1]);
      assert all[..|all| - 1] == [first] + rest[..|rest| - 1] && all[|all| - 1] == rest[|rest| - 1];
    }
  }

  lemma {:induction false} SomeKnown(a: set<Key>, b: set<Key>)
    requires a !! b && b != {}
    ensures |a + b| > |a|
  {
  }

  /** Over a live auto drain it does not know of, the engine fills up to more than five. */
  lemma {:induction false} Overfills(w: World) returns (steps: seq<Step>)
    requires Keyed(w.drains) && w.memory == Memory(map[], map[], map[], [])
    requires |KnownAutos(w.drains, w.pooled, w.clock)| <= MAX_LIVE_FLEET && UnknownAutos(w) != {}
    ensures Possible(w, steps) && After(w, steps).clock == w.clock
    ensures |LiveAutos(After(w, steps).drains, w.clock)| > MAX_LIVE_FLEET
    decreases MAX_LIVE_FLEET - |KnownAutos(w.drains, w.pooled, w.clock)|
  {
    var known := KnownAutos(w.drains, w.pooled, w.clock);
    if |known| == MAX_LIVE_FLEET {
      steps := [];
      SomeKnown(known, UnknownAutos(w));
      assert LiveAutos(w.drains, w.clock) == known + UnknownAutos(w);
    } else {
      var service := UnusedService(w.drains);
      var w1 := Do(w, SeePool(service));
      PoolElsewhere(w, service);
      FreshDrains(w1, service);
      KnownGrows(w1, service);
      var w2 := Do(w1, FailingDrain(service));
      StepKeepsKeyed(w1, FailingDrain(service));
      var rest := Overfills(w2);
      FirstStep(w1, FailingDrain(service), rest);
      FirstStep(w, SeePool(service), [FailingDrain(service)] + rest);
      steps := [SeePool(service)] + ([FailingDrain(service)] + rest);
    }
  }

  /** Five in the fleet after every run. */
  ghost predicate KeepsFleetCap(w: World) {
    forall steps :: Possible(w, steps) ==> |LiveAutos(After(w, steps).drains, After(w, steps).clock)| <= MAX_LIVE_FLEET
  }

  /**
   The fleet cap holds over every run exactly when, at the start, at most five auto drains are live
   and none of them is on a service without a pool.
   */
  lemma FleetCapExactlyWhen(w: World)
    requires Fresh(w) && Keyed(w.drains)
    ensures KeepsFleetCap(w) <==> UnknownAutos(w) == {} && |LiveAutos(w.drains, w.clock)| <= MAX_LIVE_FLEET
  {
    assert Possible(w, []) && After(w, []) == w;
    if |LiveAutos(w.drains, w.clock)| <= MAX_LIVE_FLEET {
      if UnknownAutos(w) == {} {
        forall steps | Possible(w, steps)
          ensures |LiveAutos(After(w, steps).drains, After(w, steps).clock)| <= MAX_LIVE_FLEET
        {
          FleetHolds(w, steps, 0);
        }
      } else {
        SubsetSize(KnownAutos(w.drains, w.pooled, w.clock), LiveAutos(w.drains, w.clock));
        var steps := Overfills(w);
      }
    }
  }

  /** For one: five auto drains left by an earlier instance, and a sixth set over them. */
  function Five(): set<Key> {
    {Key("a", "op", "rpc"), Key("b", "op", "rpc"), Key("c", "op", "rpc"), Key("d", "op", "rpc"), Key("e", "op", "rpc")}
  }

  lemma NothingStands(w: World, step: Step)
    requires Fresh(w) && Keyed(w.drains) && KnownAutos(w.drains, w.pooled, w.clock) == {}
    requires step.Decide? && Enabled(w, step) && !AnyCovers(w.drains, step.k, w.clock) && Gate(step.ev).None? && step.act
    ensures WillDrain(w, step)
  {
    assert PoolAutos(w.drains, step.k.service, step.k.rpc, w.clock) <= KnownAutos(w.drains, w.pooled, w.clock);
    FindsIffCovered(w.drains, step.k, w.clock);
  }

  lemma FiveElsewhere(drains: Drains)
    requires drains == map k | k in Five() :: Entry(k, 7200, "auto:")
    ensures Keyed(drains) && LiveAutos(drains, 0) == Five() && KnownAutos(drains, {"eth"}, 0) == {}
    ensures !AnyCovers(drains, Key("eth", "op", "rpc"), 0)
  {
    assert forall k :: k in Five() ==> k.service != "eth";
  }

  lemma FleetCapMissesUnknown(w: World, step: Step)
    requires Fresh(w) && w.clock == 0 && w.pooled == {"eth"} && w.drains == map k | k in Five() :: Entry(k, 7200, "auto:")
    requires step == Decide(Key("eth", "op", "rpc"), Clear(), true, 0, "", Done)
    ensures Enabled(w, step) && |LiveAutos(w.drains, w.clock)| == 5 && |LiveAutos(Do(w, step).drains, w.clock)| == 6
  {
    FiveElsewhere(w.drains);
    NothingStands(w, step);
    DrainAddsOne(w, step);
  }
}
