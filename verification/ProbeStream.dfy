/**
 The probe stream reader (healthcheck/stream.go): a replay of the recent window,
 then blocking reads, restarted by the feed after every error. What Redis holds
 at each call, which reads fail and which entries make apply panic are all
 arbitrary inputs.
 */
module ProbeStream {
  import opened Prelude
  import opened ProbeIds

  /** An entry's one field: not decodable, or a result and who produced it. */
  datatype Body = Malformed | Probe(producer: string, result: int)

  /** Ids are the numbers they print (ProbeIds: printing, parsing and the string comparison agree). */
  datatype Message = Message(id: StreamId, body: Body)

  /** A stream's ids strictly increase. */
  ghost predicate Stream(s: seq<Message>) {
    forall i, j :: 0 <= i < j < |s| ==> Less(s[i].id, s[j].id)
  }

  const READ_COUNT := 256

  // ----------------------------------------------------- Redis's commands

  /** The first argument of XRANGE: an id, an id excluded by "(", or text that is no id ("$" among it). */
  datatype Start = FromId(id: StreamId) | AfterId(id: StreamId) | NoId

  predicate InRange(start: Start, id: StreamId) {
    match start
    case FromId(b) => !Less(id, b)
    case AfterId(b) => Less(b, id)
    case NoId => false
  }

  function Select(s: seq<Message>, start: Start): seq<Message> {
    if s == [] then []
    else
      var pre, m := Select(s[..|s| - 1], start), s[|s| - 1];
      if InRange(start, m.id) then pre + [m] else pre
  }

  /** XRANGE start +: a start that is no id is an error. */
  function XRange(s: seq<Message>, start: Start): Option<seq<Message>> {
    if start.NoId? then None else Some(Select(s, start))
  }

  /** XREAD: what follows lastID, at most READ_COUNT entries; None stands for "$", the last entry when the call was made. */
  function XRead(before: seq<Message>, after: seq<Message>, lastID: Option<StreamId>): (batch: seq<Message>)
    ensures |batch| <= 256
  {
    var all :=
      if lastID.Some? then Select(after, AfterId(lastID.value))
      else if before == [] then after
      else Select(after, AfterId(before[|before| - 1].id));
    if |all| <= READ_COUNT then all else all[..READ_COUNT]
  }

  /** How one XREAD goes. */
  datatype Read = Timeout | ReadError | Delivered(before: seq<Message>, after: seq<Message>)

  /** One Run: when it starts, what XRANGE sees (None: it fails), the reads until it is cancelled. */
  datatype Session = Session(now: int, replayed: Option<seq<Message>>, polls: seq<Read>)

  ghost predicate ReadOk(r: Read) {
    r.Delivered? ==> Stream(r.before) && Stream(r.after)
  }

  ghost predicate SessionOk(s: Session) {
    (s.replayed.Some? ==> Stream(s.replayed.value)) && forall i :: 0 <= i < |s.polls| ==> ReadOk(s.polls[i])
  }

  // ------------------------------------------------------------ the reader

  /** The reader: its own instance id, the replay window in milliseconds, and the entries whose apply panics. */
  datatype Reader = Reader(self: string, replay: int, poison: set<StreamId>)

  /** The id at the start of the window; "$" without a window, and no id before the epoch. */
  function ReplayId(r: Reader, now: int): Option<StreamId> {
    if r.replay <= 0 || now < r.replay then None else Some(StreamId(now - r.replay, 0))
  }

  /** streamIDBefore: nothing is before text that is no id. */
  predicate IsBefore(a: StreamId, b: Option<StreamId>) {
    b.Some? && Less(a, b.value)
  }

  /** Where the replay starts: the window, or just past the last entry taken when that is within it. */
  function StartAt(r: Reader, resume: Option<StreamId>, now: int): Start {
    var window := ReplayId(r, now);
    if resume.Some? && !IsBefore(resume.value, window) then AfterId(resume.value)
    else if window.Some? then FromId(window.value)
    else NoId
  }

  /** Handed to apply: decodable and someone else's. */
  predicate Foreign(r: Reader, m: Message) {
    m.body.Probe? && m.body.producer != r.self
  }

  /** Where reading stands: the last entry taken, the entries handed to apply, and whether an apply panicked. */
  datatype Progress = Progress(resume: Option<StreamId>, handed: seq<Message>, died: bool)

  /** One entry: resume moves before it is applied. */
  function Take(r: Reader, p: Progress, m: Message): Progress {
    if Foreign(r, m) then Progress(Some(m.id), p.handed + [m], m.id in r.poison) else Progress(Some(m.id), p.handed, false)
  }

  function TakeAll(r: Reader, p: Progress, batch: seq<Message>): Progress
    decreases |batch|
  {
    if p.died || batch == [] then p else TakeAll(r, Take(r, p, batch[0]), batch[1..])
  }

  function ReadAll(r: Reader, p: Progress, polls: seq<Read>): Progress
    decreases |polls|
  {
    if p.died || polls == [] || polls[0].ReadError? then p
    else if polls[0].Timeout? then ReadAll(r, p, polls[1..])
    else ReadAll(r, TakeAll(r, p, XRead(polls[0].before, polls[0].after, p.resume)), polls[1..])
  }

  /** One Run from a resume point. */
  function RunOnce(r: Reader, resume: Option<StreamId>, s: Session): Progress {
    var p := Progress(resume, [], false);
    if s.replayed.None? then p
    else
      var msgs := XRange(s.replayed.value, StartAt(r, resume, s.now));
      if msgs.None? then p else ReadAll(r, TakeAll(r, p, msgs.value), s.polls)
  }

  /** The feed: Run after Run, each from where the last one stopped. */
  function RunMany(r: Reader, resume: Option<StreamId>, sessions: seq<Session>): Progress {
    if sessions == [] then Progress(resume, [], false)
    else
      var pre := RunMany(r, resume, sessions[..|sessions| - 1]);
      var last := RunOnce(r, pre.resume, sessions[|sessions| - 1]);
      Progress(last.resume, pre.handed + last.handed, last.died)
  }

  class RedisProbeStream {
    const r: Reader
    var resume: Option<StreamId>

    constructor (r: Reader)
      ensures this.r == r && resume == None
    {
      this.r, resume := r, None;
    }

    method Run(s: Session) returns (handed: seq<Message>, died: bool)
      modifies this
      ensures Progress(resume, handed, died) == RunOnce(r, old(resume), s)
    {
      handed, died := [], false;
      var window := ReplayId(r, s.now);
      var start := if window.Some? then FromId(window.value) else NoId;
      if resume.Some? && !IsBefore(resume.value, window) {
        start := AfterId(resume.value);
      }
      if s.replayed.None? {
        return;
      }
      var msgs := XRange(s.replayed.value, start);
      if msgs.None? {
        return;
      }
      handed, died := ApplyBatch(msgs.value, []);
      if died {
        return;
      }
      var lastID := resume;
      var i := 0;
      while i < |s.polls|
        invariant 0 <= i <= |s.polls| && !died && lastID == resume
        invariant ReadAll(r, Progress(resume, handed, false), s.polls[i..]) == RunOnce(r, old(resume), s)
      {
        var read := s.polls[i];
        assert s.polls[i..][1..] == s.polls[i + 1..];
        i := i + 1;
        if read.ReadError? {
          return;
        }
        if read.Delivered? {
          var batch := XRead(read.before, read.after, lastID);
          handed, died := ApplyBatch(batch, handed);
          if died {
            return;
          }
          lastID := resume;
        }
      }
    }

    method ApplyBatch(batch: seq<Message>, before: seq<Message>) returns (handed: seq<Message>, died: bool)
      modifies this
      ensures Progress(resume, handed, died) == TakeAll(r, Progress(old(resume), before, false), batch)
    {
      handed, died := before, false;
      var i := 0;
      while i < |batch|
        invariant 0 <= i <= |batch| && !died
        invariant TakeAll(r, Progress(resume, handed, false), batch[i..]) == TakeAll(r, Progress(old(resume), before, false), batch)
      {
        var m := batch[i];
        assert batch[i..][1..] == batch[i + 1..];
        resume := Some(m.id);
        i := i + 1;
        if m.body.Probe? && m.body.producer != r.self {
          handed := handed + [m];
          if m.id in r.poison {
            died := true;
            return;
          }
        }
      }
    }
  }
}
