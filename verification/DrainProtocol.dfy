/**
 Drain propagation as a transition system (drain/redis.go): one replica, one
 key, and that key's field in Redis. A Set or Release is several steps - the
 local map, then the decision under the records' lock, then the wire - and a
 refresh is several more; every interleaving of them is a run. Each local step
 is the function the store's method is proved against (DrainCells, DrainRecords).

 Fields from `decisions` down record history; no step reads them to decide anything.
 */
module DrainProtocol {
  import opened Prelude
  import opened DrainKeys
  import opened DrainCells
  import opened DrainRecords

  /** A caller between its local half and its decision. */
  datatype Call = SetCall(e: Entry) | ReleaseCall

  /** Where a write is: propagate skips an expired entry and cannot encode some. */
  datatype Wire = Begun | Sent | Landed | Skipped | Unencodable

  /** A write bracketed by a begin and its finishWrite; `decision` numbers the decision it carries. */
  datatype Write = Write(entry: Entry, gen: nat, decision: nat, wire: Wire)

  /** The refresh goroutine; `began` is read before HGETALL, `now` after it. */
  datatype Phase =
    | Idle
    | Reading(began: int)
    | Got(began: int, snap: Option<Entry>)
    | Scanned(began: int, now: int, next: Option<Entry>, expired: bool)
    | Retrying(began: int, now: int, next: Option<Entry>, expired: bool, write: nat)
    | Reconciled(began: int, now: int, next: Option<Entry>, expired: bool)
    | Cleaning

  /** The last local Set or Release on the key. */
  datatype LocalEvent = NoEvent | Install(e: Entry, at: int) | Lift(at: int)

  datatype State = State(
    clock: int,
    cell: Cell,
    record: Option<Record>,
    redis: Option<Entry>,
    calls: multiset<Call>,
    writes: map<nat, Write>,
    dels: nat,               // HDels on the wire: a release's own, or a compensation
    phase: Phase,
    nextId: nat,
    decisions: nat,          // Sets and Releases decided so far
    lastIsRelease: bool,     // the last of them was a release
    lastSet: Entry,          // the entry of the last Set decided
    lost: bool,              // an HDel failed and none has landed since
    lastLocal: LocalEvent)

  datatype Step =
    | Tick(t: int)
    | LocalSet(e: Entry)
    | LocalRelease
    | Decide(call: Call)
    | Send(id: nat)
    | Land(id: nat)
    | Finish(id: nat, err: WriteError)
    | DelLands
    | DelFails
    | RefreshBegins
    | RefreshFails
    | SnapshotTaken
    | Scan
    | TakeRetry
    | ReplaceLocal(now: int)
    | CleanLands
    | CleanFails

  /** time.Time has no JSON form from year 10000 on; the unit is whatever times are counted in. */
  const JSON_HORIZON := 315537897600

  predicate Encodable(e: Entry) {
    e.until < JSON_HORIZON
  }

  /** A fresh store; Redis may hold anything for the key. */
  predicate Init(k: Key, s: State) {
    && s.clock >= ZERO_TIME && s.cell == EMPTY_CELL && s.record == None
    && (s.redis.Some? ==> s.redis.value.key == k)
    && s.calls == multiset{} && s.writes == map[] && s.dels == 0 && s.phase == Idle && s.nextId == 0
    && s.decisions == 0 && !s.lastIsRelease && !s.lost && s.lastLocal == NoEvent
  }

  /** A write that has not landed when it finishes has failed and never lands. */
  predicate Outcome(wire: Wire, err: WriteError) {
    match wire
    case Begun => false
    case Sent => err == Propagation
    case Landed => err == NoError || err == Propagation
    case Skipped => err == NoError
    case Unencodable => err == Encoding
  }

  predicate Enabled(k: Key, s: State, step: Step) {
    match step
    case Tick(t) => t >= s.clock
    case LocalSet(e) => e.key == k
    case LocalRelease => true
    case Decide(call) => call in s.calls
    case Send(id) => id in s.writes && s.writes[id].wire == Begun
    case Land(id) => id in s.writes && s.writes[id].wire == Sent
    case Finish(id, err) => id in s.writes && Outcome(s.writes[id].wire, err)
    case DelLands => s.dels > 0
    case DelFails => s.dels > 0
    case RefreshBegins => s.phase.Idle?
    case RefreshFails => s.phase.Reading?
    case SnapshotTaken => s.phase.Reading?
    case Scan => s.phase.Got?
    case TakeRetry => s.phase.Scanned?
    case ReplaceLocal(now) => s.phase.Reconciled? && s.phase.now <= now <= s.clock
    case CleanLands => s.phase.Cleaning?
    case CleanFails => s.phase.Cleaning?
  }

  function Do(k: Key, s: State, step: Step): State
    requires Enabled(k, s, step)
  {
    match step
    case Tick(t) => s.(clock := t)
    case LocalSet(e) =>
      var event := if e.until > s.clock then Install(e, s.clock) else Lift(s.clock);
      s.(cell := Installed(e, s.clock), calls := s.calls + multiset{SetCall(e)}, lastLocal := event)
    case LocalRelease =>
      s.(cell := Lifted(s.clock), calls := s.calls + multiset{ReleaseCall}, lastLocal := Lift(s.clock))
    case Decide(call) => DoDecide(s, call)
    case Send(id) =>
      var w := s.writes[id];
      var wire := if w.entry.until <= s.clock then Skipped else if Encodable(w.entry) then Sent else Unencodable;
      s.(writes := s.writes[id := w.(wire := wire)])
    case Land(id) =>
      var w := s.writes[id];
      s.(redis := Some(w.entry), writes := s.writes[id := w.(wire := Landed)])
    case Finish(id, err) => DoFinish(s, id, err)
    case DelLands => s.(dels := s.dels - 1, redis := None, lost := false)
    case DelFails => s.(dels := s.dels - 1, lost := true)
    case RefreshBegins => s.(phase := Reading(s.clock))
    case RefreshFails => s.(phase := Idle)
    case SnapshotTaken => s.(phase := Got(s.phase.began, s.redis))
    case Scan =>
      var snap := s.phase.snap;
      var live := snap.Some? && snap.value.until > s.clock;
      s.(phase := Scanned(s.phase.began, s.clock, if live then snap else None, snap.Some? && !live))
    case TakeRetry => DoTakeRetry(s)
    case ReplaceLocal(now) =>
      s.(cell := Replaced(s.cell, s.phase.next, s.phase.began, now),
         phase := if s.phase.expired then Cleaning else Idle)
    case CleanLands => s.(phase := Idle, redis := None)
    case CleanFails => s.(phase := Idle)
  }

  /** The locked half of Set or Release; a Set whose time has run out since is a release. */
  function DoDecide(s: State, call: Call): State
    requires call in s.calls
  {
    var s := s.(calls := s.calls - multiset{call}, decisions := s.decisions + 1);
    if call.SetCall? && call.e.until > s.clock then
      var r := BeginSet(s.record, call.e);
      s.(record := Some(r), lastIsRelease := false, lastSet := call.e, nextId := s.nextId + 1,
         writes := s.writes[s.nextId := Write(call.e, r.gen, s.decisions, Begun)])
    else
      s.(record := BeginRelease(s.record), lastIsRelease := true, dels := s.dels + 1)
  }

  function DoFinish(s: State, id: nat, err: WriteError): State
    requires id in s.writes
  {
    var v := FinishWrite(s.record, s.writes[id].entry, s.writes[id].gen, err);
    var phase :=
      if s.phase.Retrying? && s.phase.write == id then
        var keep := v.live.Some? && v.live.value.until > s.phase.now;
        Reconciled(s.phase.began, s.phase.now, if keep then v.live else s.phase.next, s.phase.expired)
      else s.phase;
    s.(record := v.record, writes := s.writes - {id}, dels := if v.compensate then s.dels + 1 else s.dels, phase := phase)
  }

  function DoTakeRetry(s: State): State
    requires s.phase.Scanned?
  {
    var p := s.phase;
    var (record, retry) := TakePending(s.record, p.now);
    if retry.None? then
      s.(record := record, phase := Reconciled(p.began, p.now, p.next, p.expired))
    else
      s.(record := record, nextId := s.nextId + 1,
         writes := s.writes[s.nextId := Write(retry.value.entry, retry.value.gen, s.decisions, Begun)],
         phase := Retrying(p.began, p.now, p.next, p.expired, s.nextId))
  }

  // ------------------------------------------------------------------ runs

  ghost predicate Possible(k: Key, s: State, steps: seq<Step>)
    decreases |steps|, 0
  {
    steps == [] ||
    var pre := steps[..|steps| - 1];
    Possible(k, s, pre) && Enabled(k, After(k, s, pre), steps[|steps| - 1])
  }

  ghost function After(k: Key, s: State, steps: seq<Step>): State
    requires Possible(k, s, steps)
    decreases |steps|, 1
  {
    if steps == [] then s else Do(k, After(k, s, steps[..|steps| - 1]), steps[|steps| - 1])
  }

  ghost predicate Reachable(k: Key, s: State) {
    exists s0, steps :: Init(k, s0) && Possible(k, s0, steps) && After(k, s0, steps) == s
  }

  // ------------------------------------------------------------- invariant

  /** What the records know about the writes on the wire. */
  ghost predicate RecordsInv(k: Key, s: State) {
    && (forall id :: id in s.writes ==> id < s.nextId && WriteInv(k, s, s.writes[id]))
    && (s.record.Some? ==> s.record.value.inflight == |s.writes| && RecordInv(k, s, s.record.value))
    && (s.record.None? ==> s.writes == map[])
  }

  ghost predicate RecordInv(k: Key, s: State, r: Record) {
    && (r.entry.key == k || r.entry == ZERO_ENTRY)
    && r.released == s.lastIsRelease
    && (!r.released ==> r.entry == s.lastSet || (r.entry == ZERO_ENTRY && s.lastSet.until <= s.clock))
    && (r.pending ==> !r.released)
    && (r.pending || r.inflight > 0)
  }

  /** A write's distance from the record's generation is its distance from the last decision. */
  ghost predicate WriteInv(k: Key, s: State, w: Write) {
    && w.entry.key == k
    && s.record.Some?
    && w.gen <= s.record.value.gen
    && s.record.value.gen - w.gen == s.decisions - w.decision
    && (w.decision == s.decisions ==> !s.lastIsRelease && w.entry == s.lastSet)
  }

  /** A released key is in Redis only while something that will delete it is under way. */
  predicate ReleaseInv(s: State) {
    s.lastIsRelease && s.redis.Some? ==> s.dels > 0 || s.writes != map[] || s.lost
  }

  /** Since the refresh began, nobody but the last local event has touched the cell. */
  predicate CellInv(k: Key, s: State) {
    && CellValid(s.cell)
    && s.clock >= ZERO_TIME
    && (s.redis.Some? ==> s.redis.value.key == k)
    && (Refreshing(s.phase) ==> s.phase.began <= s.clock && SinceBegan(s))
    && (s.phase.Scanned? || s.phase.Retrying? || s.phase.Reconciled? ==> ZERO_TIME <= s.phase.now <= s.clock)
    && (s.phase.Retrying? ==> s.phase.write in s.writes)
    && (s.cell.setAt.Some? ==> s.cell.setAt.value <= s.clock)
    && (s.lastLocal.Install? ==> s.lastLocal.at <= s.clock && s.cell.releasedAt.None?)
    && (s.lastLocal.Lift? ==> s.lastLocal.at <= s.clock)
    && (s.cell.releasedAt.Some? ==> s.lastLocal == Lift(s.cell.releasedAt.value))
    && (s.cell.setAt.Some? ==> s.lastLocal.Install? && s.lastLocal.at == s.cell.setAt.value)
  }

  predicate Refreshing(p: Phase) {
    !p.Idle? && !p.Cleaning?
  }

  predicate SinceBegan(s: State)
    requires Refreshing(s.phase)
  {
    && (s.lastLocal.Install? && s.lastLocal.at > s.phase.began ==>
          s.cell == Cell(Some(s.lastLocal.e), Some(s.lastLocal.at), None))
    && (s.lastLocal.Lift? && s.lastLocal.at > s.phase.began ==> s.cell == Lifted(s.lastLocal.at))
  }

  ghost predicate Inv(k: Key, s: State) {
    RecordsInv(k, s) && ReleaseInv(s) && CellInv(k, s)
  }

  lemma AddWrite(m: map<nat, Write>, id: nat, w: Write)
    requires id !in m
    ensures |m[id := w]| == |m| + 1
  {
    assert m[id := w].Keys == m.Keys + {id};
  }

  lemma DropWrite(m: map<nat, Write>, id: nat)
    requires id in m
    ensures |m - {id}| == |m| - 1
    ensures |m| == 1 ==> m - {id} == map[]
  {
    assert (m - {id}).Keys == m.Keys - {id};
  }

  lemma DecideKeeps(k: Key, s: State, call: Call)
    requires Inv(k, s) && call in s.calls && (call.SetCall? ==> call.e.key == k)
    ensures Inv(k, DoDecide(s, call))
  {
    AddWrite(s.writes, s.nextId, Write(ZERO_ENTRY, 0, 0, Begun));
    var s' := DoDecide(s, call);
    if call.SetCall? && call.e.until > s.clock {
      AddWrite(s.writes, s.nextId, s'.writes[s.nextId]);
    }
  }

  lemma FinishKeeps(k: Key, s: State, id: nat, err: WriteError)
    requires Inv(k, s) && id in s.writes
    ensures Inv(k, DoFinish(s, id, err))
  {
    DropWrite(s.writes, id);
  }

  lemma TakeRetryKeeps(k: Key, s: State)
    requires Inv(k, s) && s.phase.Scanned?
    ensures Inv(k, DoTakeRetry(s))
  {
    var s' := DoTakeRetry(s);
    if s'.phase.Retrying? {
      AddWrite(s.writes, s.nextId, s'.writes[s.nextId]);
    }
  }

  /** A write changing its place on the wire changes no count. */
  lemma WireKeeps(k: Key, s: State, id: nat, wire: Wire)
    requires RecordsInv(k, s) && id in s.writes
    ensures RecordsInv(k, s.(writes := s.writes[id := s.writes[id].(wire := wire)]))
  {
    assert s.writes[id := s.writes[id].(wire := wire)].Keys == s.writes.Keys;
  }

  ghost predicate CallsInv(k: Key, s: State) {
    forall c :: c in s.calls && c.SetCall? ==> c.e.key == k
  }

  /** A step that leaves the records, the writes and the decisions alone. */
  lemma RecordsFramed(k: Key, s: State, s': State)
    requires RecordsInv(k, s)
    requires s'.record == s.record && s'.writes == s.writes && s'.nextId == s.nextId
    requires s'.decisions == s.decisions && s'.lastIsRelease == s.lastIsRelease && s'.lastSet == s.lastSet
    requires s'.clock >= s.clock
    ensures RecordsInv(k, s')
  {
  }

  predicate Framed(step: Step) {
    !step.Decide? && !step.Finish? && !step.TakeRetry? && !step.Send? && !step.Land?
  }

  /** Such a step does leave them alone. */
  lemma FramedLeaves(k: Key, s: State, step: Step)
    requires Enabled(k, s, step) && Framed(step)
    ensures var s' := Do(k, s, step);
            && s'.record == s.record && s'.writes == s.writes && s'.nextId == s.nextId
            && s'.decisions == s.decisions && s'.lastIsRelease == s.lastIsRelease && s'.lastSet == s.lastSet
            && s'.clock >= s.clock
  {
  }

  lemma FramedKeepsRelease(k: Key, s: State, step: Step)
    requires ReleaseInv(s) && Enabled(k, s, step) && Framed(step)
    ensures ReleaseInv(Do(k, s, step))
  {
  }

  lemma FramedKeepsCalls(k: Key, s: State, step: Step)
    requires CallsInv(k, s) && Enabled(k, s, step) && Framed(step)
    ensures CallsInv(k, Do(k, s, step))
  {
  }

  predicate Refreshes(step: Step) {
    step.RefreshBegins? || step.RefreshFails? || step.SnapshotTaken? || step.Scan? || step.CleanLands? || step.CleanFails?
  }

  lemma RefreshKeepsCell(k: Key, s: State, step: Step)
    requires CellInv(k, s) && Enabled(k, s, step) && Refreshes(step)
    ensures CellInv(k, Do(k, s, step))
  {
  }

  lemma ReplaceKeepsCell(k: Key, s: State, now: int)
    requires CellInv(k, s) && Enabled(k, s, ReplaceLocal(now))
    ensures CellInv(k, Do(k, s, ReplaceLocal(now)))
  {
  }

  lemma LocalKeepsCell(k: Key, s: State, step: Step)
    requires CellInv(k, s) && Enabled(k, s, step) && Framed(step) && !Refreshes(step) && !step.ReplaceLocal?
    ensures CellInv(k, Do(k, s, step))
  {
  }

  lemma FramedKeepsCell(k: Key, s: State, step: Step)
    requires CellInv(k, s) && Enabled(k, s, step) && Framed(step)
    ensures CellInv(k, Do(k, s, step))
  {
    if Refreshes(step) {
      RefreshKeepsCell(k, s, step);
    } else if step.ReplaceLocal? {
      ReplaceKeepsCell(k, s, step.now);
    } else {
      LocalKeepsCell(k, s, step);
    }
  }

  ghost predicate AllInv(k: Key, s: State) {
    Inv(k, s) && CallsInv(k, s)
  }

  lemma FramedKeepsInv(k: Key, s: State, step: Step)
    requires AllInv(k, s) && Enabled(k, s, step) && Framed(step)
    ensures AllInv(k, Do(k, s, step))
  {
    FramedLeaves(k, s, step);
    RecordsFramed(k, s, Do(k, s, step));
    FramedKeepsRelease(k, s, step);
    FramedKeepsCell(k, s, step);
    FramedKeepsCalls(k, s, step);
  }

  lemma WireKeepsInv(k: Key, s: State, step: Step)
    requires AllInv(k, s) && Enabled(k, s, step) && (step.Send? || step.Land?)
    ensures AllInv(k, Do(k, s, step))
  {
    WireKeeps(k, s, step.id, Do(k, s, step).writes[step.id].wire);
  }

  lemma DecidedKeepsInv(k: Key, s: State, step: Step)
    requires AllInv(k, s) && Enabled(k, s, step) && (step.Decide? || step.Finish? || step.TakeRetry?)
    ensures AllInv(k, Do(k, s, step))
  {
    match step
    case Decide(call) => DecideKeeps(k, s, call);
    case Finish(id, err) => FinishKeeps(k, s, id, err);
    case TakeRetry => TakeRetryKeeps(k, s);
  }

  lemma StepKeepsInv(k: Key, s: State, step: Step)
    requires AllInv(k, s) && Enabled(k, s, step)
    ensures AllInv(k, Do(k, s, step))
  {
    if Framed(step) {
      FramedKeepsInv(k, s, step);
    } else if step.Send? || step.Land? {
      WireKeepsInv(k, s, step);
    } else {
      DecidedKeepsInv(k, s, step);
    }
  }

  lemma {:induction false} RunKeepsInv(k: Key, s: State, steps: seq<Step>)
    requires Inv(k, s) && CallsInv(k, s) && Possible(k, s, steps)
    ensures Inv(k, After(k, s, steps)) && CallsInv(k, After(k, s, steps))
    decreases |steps|
  {
    if steps != [] {
      RunKeepsInv(k, s, steps[..|steps| - 1]);
      StepKeepsInv(k, After(k, s, steps[..|steps| - 1]), steps[|steps| - 1]);
    }
  }

  lemma ReachableInv(k: Key, s: State)
    requires Reachable(k, s)
    ensures Inv(k, s) && CallsInv(k, s)
  {
    var s0, steps :| Init(k, s0) && Possible(k, s0, steps) && After(k, s0, steps) == s;
    RunKeepsInv(k, s0, steps);
  }

  // -------------------------------------------------------------- theorems

  /**
   Release wins. Once the last decision is a release and nothing it raced is
   still on the wire, Redis holds no field for the key and nothing is
   remembered about it - however many stale HSets landed after the release's
   own HDel - provided no HDel was lost since the last one that landed.
   */
  lemma ReleaseWins(k: Key, s: State)
    requires Reachable(k, s)
    requires s.lastIsRelease && s.writes == map[] && s.dels == 0 && !s.lost
    ensures s.redis == None && s.record == None
  {
    ReachableInv(k, s);
  }

  /**
   Comparing generations answers "was this write overtaken?" exactly, although
   records are forgotten and start again from zero: a write on the wire always
   has a record counting it, and their generations agree exactly when no
   decision followed the one the write carries.
   */
  lemma GenerationTellsOvertaken(k: Key, s: State, id: nat)
    requires Reachable(k, s) && id in s.writes
    ensures s.record.Some? && s.record.value.inflight == |s.writes| && s.writes[id].gen <= s.record.value.gen
    ensures s.writes[id].gen == s.record.value.gen <==> s.writes[id].decision == s.decisions
    ensures s.record.value.pending || s.writes[id].decision == s.decisions ==> !s.record.value.released
  {
    ReachableInv(k, s);
  }

  /** A record that is forgotten leaves no write behind to mistake its successor for its own. */
  lemma ForgottenMeansNothingInFlight(k: Key, s: State)
    requires Reachable(k, s) && s.record.None?
    ensures s.writes == map[] && !s.phase.Retrying?
  {
    ReachableInv(k, s);
  }

  /**
   finishWrite decides by history: a write is undone exactly when a release
   followed it and is the last word; one still current keeps its own entry; one
   overtaken by a Set hands the local map that Set's entry (or nothing live,
   when that has run out) and leaves it pending.
   */
  lemma FinishVerdict(k: Key, s: State, id: nat, err: WriteError)
    requires Reachable(k, s) && id in s.writes
    ensures var w := s.writes[id];
            var v := FinishWrite(s.record, w.entry, w.gen, err);
            && (v.compensate <==> w.decision != s.decisions && s.lastIsRelease)
            && (v.compensate ==> v.live == None)
            && (w.decision == s.decisions ==> v.live == Some(s.lastSet))
            && (w.decision != s.decisions && !s.lastIsRelease ==>
                  && v.record.Some? && v.record.value.pending
                  && (s.lastSet.until > s.clock ==> v.live == Some(s.lastSet) && v.record.value.entry == s.lastSet)
                  && (v.live.Some? && v.live.value.until > s.clock ==> v.live.value == s.lastSet))
  {
    ReachableInv(k, s);
  }

  /**
   What a refresh lays down: nothing where the key was last released after it began;
   else what it brings, whatever was released before; else the last Set when that came after
   it began and still has time; else nothing. So it cannot resurrect a release, nor wipe a
   Set, that happened while it was under way, nor keep anything older than itself.
   */
  lemma RefreshRespectsLocalChanges(k: Key, s: State, now: int)
    requires Reachable(k, s) && Enabled(k, s, ReplaceLocal(now))
    ensures var c, last, began := Do(k, s, ReplaceLocal(now)).cell, s.lastLocal, s.phase.began;
            && c.entry == (if last.Lift? && last.at > began then None
                           else if s.phase.next.Some? then s.phase.next
                           else if last.Install? && last.at > began && last.e.until > now then Some(last.e)
                           else None)
            && CellValid(c) && c.releasedAt == None
            && c.setAt == if c.entry.Some? then s.cell.setAt else None
  {
    ReachableInv(k, s);
  }
}
