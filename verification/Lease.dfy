/** The instance's side of leader election (healthcheck/leader.go): two flags, moved by Redis's replies. */
module LeaderElection {

  datatype Flags = Flags(isLeader: bool, fallback: bool)

  /** A reply to SETNX or to the renew script; Err covers a Redis that is away or too slow. */
  datatype Reply = Yes | No | Err

  datatype Command = Acquire | Renew

  /** A leader by election renews; anyone else tries to acquire. */
  function CommandFor(f: Flags): Command {
    if f.isLeader && !f.fallback then Renew else Acquire
  }

  /** tryAcquire, once the reply is in. */
  function Received(f: Flags, reply: Reply): Flags {
    if reply == Err then Flags(true, true)
    else if CommandFor(f) == Renew then f.(isLeader := reply == Yes)
    else Flags(reply == Yes, false)
  }

  class LeaderElector {
    var isLeader: bool
    var fallback: bool

    function View(): Flags
      reads this
    {
      Flags(isLeader, fallback)
    }

    constructor ()
      ensures View() == Flags(false, false)
    {
      isLeader, fallback := false, false;
    }

    method TryAcquire(reply: Reply)
      modifies this
      ensures View() == Received(old(View()), reply)
    {
      if isLeader && !fallback {
        if reply == Err {
          FallBack();
          return;
        }
        if reply == No {
          isLeader := false;
        }
        return;
      }
      if reply == Err {
        FallBack();
        return;
      }
      fallback := false;
      isLeader := reply == Yes;
    }

    /** The instance leads itself while Redis errors. */
    method FallBack()
      modifies this
      ensures View() == Flags(true, true)
    {
      fallback := true;
      isLeader := true;
    }
  }
}

/**
 The election as a transition system: any number of instances, one Redis key with
 a time to live, requests that are executed and answered at different moments,
 and requests that are executed although their sender has given up on them.
 */
module Lease {
  import opened Prelude
  import opened LeaderElection

  type Id = string

  const TTL := 30

  /** The Redis key; past its expiry it reads as absent. */
  datatype Holder = Holder(owner: Id, expiry: int)

  /** tryAcquire is one request at a time: none, sent, or executed at a time with a result. */
  datatype Request = NoRequest | SentRequest(cmd: Command) | Executed(yes: bool, at: int)

  /** grantedAt is when Redis executed the last success this instance heard of. */
  datatype Instance = Instance(flags: Flags, running: bool, request: Request, grantedAt: int)

  datatype State = State(clock: int, key: Option<Holder>, instances: map<Id, Instance>)

  datatype Step =
    | Tick(t: int)
    | Start(id: Id)
    | Send(id: Id)
    | Execute(id: Id)
    | Deliver(id: Id)
    | Fail(id: Id)                  // an error or a timeout, the request executed or not
    | Late(id: Id, cmd: Command)    // a request nobody waits for any more reaches Redis
    | Stop(id: Id)
    | Release(id: Id)               // a stopped instance's release reaches Redis

  predicate Init(s: State) {
    s.key == None && s.instances == map[]
  }

  predicate KeyLive(s: State) {
    s.key.Some? && s.clock < s.key.value.expiry
  }

  /** SET NX EX, or the renew script's compare-and-expire. */
  predicate Succeeds(s: State, id: Id, cmd: Command) {
    match cmd
    case Acquire => !KeyLive(s)
    case Renew => KeyLive(s) && s.key.value.owner == id
  }

  function KeyAfter(s: State, id: Id, cmd: Command): Option<Holder> {
    if Succeeds(s, id, cmd) then Some(Holder(id, s.clock + TTL)) else s.key
  }

  predicate Known(s: State, id: Id) {
    id in s.instances && s.instances[id].running
  }

  predicate Enabled(s: State, step: Step) {
    match step
    case Tick(t) => t >= s.clock
    case Start(id) => id !in s.instances
    case Send(id) => Known(s, id) && s.instances[id].request.NoRequest?
    case Execute(id) => id in s.instances && s.instances[id].request.SentRequest?
    case Deliver(id) => id in s.instances && s.instances[id].request.Executed?
    case Fail(id) => id in s.instances && !s.instances[id].request.NoRequest?
    case Late(id, _) => id in s.instances
    case Stop(id) => Known(s, id)
    case Release(id) => id in s.instances && !s.instances[id].running
  }

  function With(s: State, id: Id, i: Instance): State {
    s.(instances := s.instances[id := i])
  }

  function Do(s: State, step: Step): State
    requires Enabled(s, step)
  {
    match step
    case Tick(t) => s.(clock := t)
    case Start(id) => With(s, id, Instance(Flags(false, false), true, NoRequest, s.clock))
    case Send(id) =>
      var i := s.instances[id];
      With(s, id, i.(request := SentRequest(CommandFor(i.flags))))
    case Execute(id) =>
      var i := s.instances[id];
      With(s, id, i.(request := Executed(Succeeds(s, id, i.request.cmd), s.clock))).(key := KeyAfter(s, id, i.request.cmd))
    case Deliver(id) =>
      var i := s.instances[id];
      var heard := if i.request.yes then i.(grantedAt := i.request.at) else i;
      With(s, id, heard.(flags := Received(i.flags, if i.request.yes then Yes else No), request := NoRequest))
    case Fail(id) =>
      var i := s.instances[id];
      With(s, id, i.(flags := Received(i.flags, Err), request := NoRequest))
    case Late(id, cmd) => s.(key := KeyAfter(s, id, cmd))
    case Stop(id) => With(s, id, s.instances[id].(running := false))
    case Release(id) => if KeyLive(s) && s.key.value.owner == id then s.(key := None) else s
  }

  ghost predicate Possible(s: State, steps: seq<Step>)
    decreases |steps|, 0
  {
    steps == [] ||
    var pre := steps[..|steps| - 1];
    Possible(s, pre) && Enabled(After(s, pre), steps[|steps| - 1])
  }

  ghost function After(s: State, steps: seq<Step>): State
    requires Possible(s, steps)
    decreases |steps|, 1
  {
    if steps == [] then s else Do(After(s, steps[..|steps| - 1]), steps[|steps| - 1])
  }

  ghost predicate Reachable(s: State) {
    exists s0, steps :: Init(s0) && Possible(s0, steps) && After(s0, steps) == s
  }

  // ---------------------------------------------------------------- safety

  /** The key is id's, and stays so for a full TTL from `at`. */
  predicate Holds(s: State, id: Id, at: int) {
    s.key.Some? && s.key.value.owner == id && s.key.value.expiry >= at + TTL
  }

  predicate Elected(i: Instance) {
    i.running && i.flags.isLeader && !i.flags.fallback
  }

  ghost predicate InstanceInv(s: State, id: Id, i: Instance) {
    && i.grantedAt <= s.clock
    && (Elected(i) && s.clock < i.grantedAt + TTL ==> Holds(s, id, i.grantedAt))
    && (i.request.Executed? ==> i.request.at <= s.clock)
    && (i.running && i.request.Executed? && i.request.yes && s.clock < i.request.at + TTL ==> Holds(s, id, i.request.at))
  }

  ghost predicate Inv(s: State) {
    forall id :: id in s.instances ==> InstanceInv(s, id, s.instances[id])
  }

  /** Redis executing any command, wanted or not, takes the key from nobody whose grant is fresh. */
  lemma CommandKeeps(s: State, id: Id, cmd: Command)
    requires Inv(s)
    ensures Inv(s.(key := KeyAfter(s, id, cmd)))
  {
    var s' := s.(key := KeyAfter(s, id, cmd));
    forall j | j in s.instances
      ensures InstanceInv(s', j, s.instances[j])
    {
      assert InstanceInv(s, j, s.instances[j]);
    }
  }

  lemma StepKeepsInv(s: State, step: Step)
    requires Inv(s) && Enabled(s, step)
    ensures Inv(Do(s, step))
  {
    match step
    case Late(id, cmd) => CommandKeeps(s, id, cmd);
    case Execute(id) => CommandKeeps(s, id, s.instances[id].request.cmd);
    case _ =>
  }

  lemma {:induction false} RunKeepsInv(s: State, steps: seq<Step>)
    requires Inv(s) && Possible(s, steps)
    ensures Inv(After(s, steps))
    decreases |steps|
  {
    if steps != [] {
      RunKeepsInv(s, steps[..|steps| - 1]);
      StepKeepsInv(After(s, steps[..|steps| - 1]), steps[|steps| - 1]);
    }
  }

  /** A running leader by election whose last success is less than one TTL old owns the key. */
  lemma LeaseSafety(s: State, id: Id)
    requires Reachable(s) && id in s.instances && Elected(s.instances[id])
    requires s.clock < s.instances[id].grantedAt + TTL
    ensures KeyLive(s) && s.key.value.owner == id
  {
    var s0, steps :| Init(s0) && Possible(s0, steps) && After(s0, steps) == s;
    RunKeepsInv(s0, steps);
  }

  /** So no two such leaders exist at once, whatever errors, expiries and fallbacks occur. */
  lemma OneFreshLeader(s: State, a: Id, b: Id)
    requires Reachable(s) && a in s.instances && b in s.instances
    requires Elected(s.instances[a]) && s.clock < s.instances[a].grantedAt + TTL
    requires Elected(s.instances[b]) && s.clock < s.instances[b].grantedAt + TTL
    ensures a == b
  {
    LeaseSafety(s, a);
    LeaseSafety(s, b);
  }

  lemma Reaches(s: State, step: Step)
    requires Reachable(s) && Enabled(s, step)
    ensures Reachable(Do(s, step))
  {
    var s0, steps :| Init(s0) && Possible(s0, steps) && After(s0, steps) == s;
    var more := steps + [step];
    assert more[..|more| - 1] == steps;
    assert Possible(s0, more) && After(s0, more) == Do(s, step);
  }

  /** Started with the key free, an instance asks once and leads. */
  lemma Wins(s: State, id: Id) returns (s': State)
    requires Reachable(s) && id !in s.instances && !KeyLive(s)
    ensures Reachable(s') && s'.clock == s.clock && s'.key == Some(Holder(id, s.clock + TTL))
    ensures s'.instances == s.instances[id := Instance(Flags(true, false), true, NoRequest, s.clock)]
  {
    var s1 := Do(s, Start(id));
    Reaches(s, Start(id));
    var s2 := Do(s1, Send(id));
    Reaches(s1, Send(id));
    var s3 := Do(s2, Execute(id));
    Reaches(s2, Execute(id));
    s' := Do(s3, Deliver(id));
    Reaches(s3, Deliver(id));
    assert s'.instances == s.instances[id := Instance(Flags(true, false), true, NoRequest, s.clock)];
  }

  /** The bound is tight: the flag alone excludes nobody once a grant is a whole TTL old. */
  lemma StaleLeaderOverlaps() returns (s: State, a: Id, b: Id)
    ensures Reachable(s) && a != b && a in s.instances && b in s.instances
    ensures Elected(s.instances[a]) && Elected(s.instances[b]) && s.clock == s.instances[a].grantedAt + TTL
  {
    a, b := "a", "b";
    var s0 := State(0, None, map[]);
    assert Possible(s0, []) && After(s0, []) == s0;
    var s1 := Wins(s0, a);
    Reaches(s1, Tick(TTL));
    s := Wins(Do(s1, Tick(TTL)), b);
  }

  // ------------------------------------------------- what an instance goes by

  /** What a step lets an instance hear. */
  function Heard(s: State, step: Step, id: Id): Option<Reply>
    requires Enabled(s, step)
  {
    if step == Deliver(id) then Some(if s.instances[id].request.yes then Yes else No)
    else if step == Fail(id) then Some(Err)
    else None
  }

  /** The last thing it heard over a run. */
  ghost function LastHeard(s: State, steps: seq<Step>, id: Id): Option<Reply>
    requires Possible(s, steps)
    decreases |steps|
  {
    if steps == [] then None
    else
      var pre := steps[..|steps| - 1];
      var heard := Heard(After(s, pre), steps[|steps| - 1], id);
      if heard.Some? then heard else LastHeard(s, pre, id)
  }

  /**
   Over every run an instance leads by election exactly when the last reply it heard was yes, leads
   itself exactly when it was an error, and does not lead when it was no or it has heard nothing.
   */
  lemma {:induction false} LastReplyDecides(s: State, steps: seq<Step>, id: Id)
    requires Init(s) && Possible(s, steps)
    ensures id !in After(s, steps).instances ==> LastHeard(s, steps, id).None?
    ensures id in After(s, steps).instances ==>
              After(s, steps).instances[id].flags ==
              match LastHeard(s, steps, id)
              case None => Flags(false, false)
              case Some(Yes) => Flags(true, false)
              case Some(No) => Flags(false, false)
              case Some(Err) => Flags(true, true)
    decreases |steps|
  {
    if steps != [] {
      LastReplyDecides(s, steps[..|steps| - 1], id);
    }
  }

  /** One request made, executed and answered at once. */
  function OneRound(s: State, id: Id): State
    requires Known(s, id) && s.instances[id].request.NoRequest?
  {
    Do(Do(Do(s, Send(id)), Execute(id)), Deliver(id))
  }

  /**
   A leader by election prolongs a key that is still its own, and one whose key has run out or is
   another's stops leading; anyone else, an instance leading itself included, takes a free key and
   leads, and otherwise does not lead. Only a success moves the key.
   */
  lemma OneRoundExactly(s: State, id: Id)
    requires Known(s, id) && s.instances[id].request.NoRequest?
    ensures var s', f := OneRound(s, id), s.instances[id].flags;
            var mine := s.key.Some? && s.clock < s.key.value.expiry && s.key.value.owner == id;
            var free := s.key.None? || s.key.value.expiry <= s.clock;
            var wins := if f == Flags(true, false) then mine else free;
            && s'.instances[id].flags == Flags(wins, false)
            && s'.key == (if wins then Some(Holder(id, s.clock + TTL)) else s.key)
            && (wins ==> s'.instances[id].grantedAt == s.clock)
  {
  }

  /** A stopped instance never asks again. */
  lemma {:induction false} StoppedStaysSilent(s: State, steps: seq<Step>, id: Id)
    requires id in s.instances && s.instances[id].running && Possible(Do(s, Stop(id)), steps)
    ensures var s' := After(Do(s, Stop(id)), steps);
            id in s'.instances && !s'.instances[id].running && !Enabled(s', Send(id))
    decreases |steps|
  {
    if steps != [] {
      StoppedStaysSilent(s, steps[..|steps| - 1], id);
    }
  }

  /** A stopped instance's release frees its own key and nobody else's. */
  lemma ReleaseFreesOwnKey(s: State, id: Id)
    requires Enabled(s, Release(id)) && s.key.Some? && s.clock < s.key.value.expiry
    ensures Do(s, Release(id)).key == if s.key.value.owner == id then None else s.key
    ensures Do(s, Release(id)).instances == s.instances && Do(s, Release(id)).clock == s.clock
  {
  }
}
