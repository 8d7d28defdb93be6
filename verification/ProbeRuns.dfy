/**
 Reading across restarts: every entry is handed to apply at most once, in order,
 whatever fails; and how reading moves along an append-only stream.
 */
module ProbeRuns {
  import opened Prelude
  import opened ProbeIds
  import opened ProbeStream

  /** Past the resume point; anything is past none. */
  predicate Past(resume: Option<StreamId>, id: StreamId) {
    resume.None? || Less(resume.value, id)
  }

  /** An entry handed out between two resume points: someone else's, past the first and up to the second. */
  ghost predicate Handed(r: Reader, base: Option<StreamId>, resume: Option<StreamId>, m: Message) {
    && m.body.Probe? && m.body.producer != r.self
    && Past(base, m.id) && resume.Some? && !Less(resume.value, m.id)
  }

  /** Everything handed out since `base` lies past it, in order, up to the resume point, and is someone else's. */
  ghost predicate Advances(r: Reader, base: Option<StreamId>, p: Progress) {
    && Stream(p.handed)
    && (forall i :: 0 <= i < |p.handed| ==> Handed(r, base, p.resume, p.handed[i]))
    && (p.resume == base || (p.resume.Some? && Past(base, p.resume.value)))
  }

  ghost predicate Ahead(resume: Option<StreamId>, batch: seq<Message>) {
    Stream(batch) && forall i :: 0 <= i < |batch| ==> Past(resume, batch[i].id)
  }

  lemma {:induction false} TakeAllAdvances(r: Reader, base: Option<StreamId>, p: Progress, batch: seq<Message>)
    requires Advances(r, base, p) && Ahead(p.resume, batch)
    ensures Advances(r, base, TakeAll(r, p, batch))
    decreases |batch|
  {
    if !p.died && batch != [] {
      TakeAllAdvances(r, base, Take(r, p, batch[0]), batch[1..]);
    }
  }

  lemma {:induction false} SelectMeaning(s: seq<Message>, start: Start)
    requires Stream(s)
    ensures Stream(Select(s, start))
    ensures forall m :: m in Select(s, start) <==> m in s && InRange(start, m.id)
  {
    if s != [] {
      SelectMeaning(s[..|s| - 1], start);
      assert s == s[..|s| - 1] + [s[|s| - 1]];
      forall m | m in Select(s[..|s| - 1], start)
        ensures Less(m.id, s[|s| - 1].id)
      {
      }
    }
  }

  /** The replay hands out only entries past the resume point, wherever it starts. */
  lemma {:induction false} ReplayAhead(r: Reader, resume: Option<StreamId>, s: seq<Message>, now: int)
    requires Stream(s)
    ensures Ahead(resume, Select(s, StartAt(r, resume, now)))
  {
    SelectMeaning(s, StartAt(r, resume, now));
    var msgs := Select(s, StartAt(r, resume, now));
    forall i | 0 <= i < |msgs|
      ensures Past(resume, msgs[i].id)
    {
      assert msgs[i] in msgs;
    }
  }

  lemma ReadAhead(before: seq<Message>, after: seq<Message>, resume: Option<StreamId>)
    requires Stream(after)
    ensures Ahead(resume, XRead(before, after, resume))
  {
    if resume.Some? || before != [] {
      var start := AfterId(if resume.Some? then resume.value else before[|before| - 1].id);
      SelectMeaning(after, start);
      var all := Select(after, start);
      forall i | 0 <= i < |all|
        ensures Past(resume, all[i].id)
      {
        assert all[i] in all;
      }
    }
  }

  lemma {:induction false} ReadAllAdvances(r: Reader, base: Option<StreamId>, p: Progress, polls: seq<Read>)
    requires Advances(r, base, p) && forall i :: 0 <= i < |polls| ==> ReadOk(polls[i])
    ensures Advances(r, base, ReadAll(r, p, polls))
    decreases |polls|
  {
    if !p.died && polls != [] && !polls[0].ReadError? {
      if polls[0].Timeout? {
        ReadAllAdvances(r, base, p, polls[1..]);
      } else {
        var batch := XRead(polls[0].before, polls[0].after, p.resume);
        ReadAhead(polls[0].before, polls[0].after, p.resume);
        TakeAllAdvances(r, base, p, batch);
        ReadAllAdvances(r, base, TakeAll(r, p, batch), polls[1..]);
      }
    }
  }

  lemma RunAdvances(r: Reader, resume: Option<StreamId>, s: Session)
    requires SessionOk(s)
    ensures Advances(r, resume, RunOnce(r, resume, s))
  {
    var p := Progress(resume, [], false);
    if s.replayed.Some? && !StartAt(r, resume, s.now).NoId? {
      ReplayAhead(r, resume, s.replayed.value, s.now);
      var msgs := Select(s.replayed.value, StartAt(r, resume, s.now));
      TakeAllAdvances(r, resume, p, msgs);
      ReadAllAdvances(r, resume, TakeAll(r, p, msgs), s.polls);
    }
  }

  lemma StreamsJoin(a: seq<Message>, b: seq<Message>, at: StreamId)
    requires Stream(a) && Stream(b)
    requires (forall i :: 0 <= i < |a| ==> !Less(at, a[i].id)) && forall i :: 0 <= i < |b| ==> Less(at, b[i].id)
    ensures Stream(a + b)
  {
    forall i, j | 0 <= i < j < |a + b|
      ensures Less((a + b)[i].id, (a + b)[j].id)
    {
      if i < |a| <= j {
        assert !Less(at, a[i].id) && Less(at, b[j - |a|].id);
      }
    }
  }

  lemma HandedThen(r: Reader, base: Option<StreamId>, mid: Option<StreamId>, resume: Option<StreamId>, m: Message)
    requires mid == base || (mid.Some? && Past(base, mid.value))
    requires resume == mid || (resume.Some? && Past(mid, resume.value))
    ensures Handed(r, base, mid, m) || Handed(r, mid, resume, m) ==> Handed(r, base, resume, m)
  {
  }

  /** One Run after another, from where the first one stopped. */
  lemma AdvancesOn(r: Reader, base: Option<StreamId>, pre: Progress, last: Progress)
    requires Advances(r, base, pre) && Advances(r, pre.resume, last)
    ensures Advances(r, base, Progress(last.resume, pre.handed + last.handed, last.died))
  {
    var all := pre.handed + last.handed;
    HandedJoin(r, base, pre, last);
    forall i | 0 <= i < |all|
      ensures Handed(r, base, last.resume, all[i])
    {
      HandedThen(r, base, pre.resume, last.resume, all[i]);
      assert i < |pre.handed| ==> Handed(r, base, pre.resume, pre.handed[i]);
      assert i >= |pre.handed| ==> Handed(r, pre.resume, last.resume, last.handed[i - |pre.handed|]);
    }
  }

  lemma HandedJoin(r: Reader, base: Option<StreamId>, pre: Progress, last: Progress)
    requires Advances(r, base, pre) && Advances(r, pre.resume, last)
    ensures Stream(pre.handed + last.handed)
  {
    if pre.handed == [] {
      assert pre.handed + last.handed == last.handed;
    } else {
      assert Handed(r, base, pre.resume, pre.handed[0]);
      forall i | 0 <= i < |last.handed|
        ensures Less(pre.resume.value, last.handed[i].id)
      {
        assert Handed(r, pre.resume, last.resume, last.handed[i]);
      }
      StreamsJoin(pre.handed, last.handed, pre.resume.value);
    }
  }

  /**
   At most once across restarts: over any sequence of Runs, each ending at an
   arbitrary error, cancellation or panic in apply, the ids handed to apply
   strictly increase, and no entry this instance produced is among them.
   */
  lemma {:induction false} AtMostOnce(r: Reader, resume: Option<StreamId>, sessions: seq<Session>)
    requires forall i :: 0 <= i < |sessions| ==> SessionOk(sessions[i])
    ensures Advances(r, resume, RunMany(r, resume, sessions))
  {
    if sessions != [] {
      AtMostOnce(r, resume, sessions[..|sessions| - 1]);
      var pre := RunMany(r, resume, sessions[..|sessions| - 1]);
      RunAdvances(r, pre.resume, sessions[|sessions| - 1]);
      AdvancesOn(r, resume, pre, RunOnce(r, pre.resume, sessions[|sessions| - 1]));
    }
  }

  /** Written out: whatever is handed out decodes and is someone else's, and none of it is handed out again. */
  lemma {:induction false} NeverItsOwn(r: Reader, resume: Option<StreamId>, sessions: seq<Session>)
    requires forall i :: 0 <= i < |sessions| ==> SessionOk(sessions[i])
    ensures var handed := RunMany(r, resume, sessions).handed;
            && (forall i :: 0 <= i < |handed| ==> handed[i].body.Probe? && handed[i].body.producer != r.self)
            && (forall i, j :: 0 <= i < j < |handed| ==> Less(handed[i].id, handed[j].id))
            && (resume.Some? ==> forall i :: 0 <= i < |handed| ==> Less(resume.value, handed[i].id))
  {
    AtMostOnce(r, resume, sessions);
    var p := RunMany(r, resume, sessions);
    forall i | 0 <= i < |p.handed|
      ensures p.handed[i].body.Probe? && p.handed[i].body.producer != r.self
      ensures resume.Some? ==> Less(resume.value, p.handed[i].id)
    {
      assert Handed(r, resume, p.resume, p.handed[i]);
    }
  }

  // --------------------------------------------------- along the stream

  /** The entries of ms that are handed out. */
  function Mine(r: Reader, ms: seq<Message>): seq<Message> {
    if ms == [] then []
    else (if ms[0].body.Probe? && ms[0].body.producer != r.self then [ms[0]] else []) + Mine(r, ms[1..])
  }

  lemma {:induction false} MineConcat(r: Reader, a: seq<Message>, b: seq<Message>)
    ensures Mine(r, a + b) == Mine(r, a) + Mine(r, b)
  {
    if a == [] {
      assert a + b == b;
    } else {
      assert (a + b)[1..] == a[1..] + b;
      MineConcat(r, a[1..], b);
    }
  }

  /** The id reading resumes from after the first n entries of the whole stream. */
  function IdAt(whole: seq<Message>, n: nat): Option<StreamId>
    requires n <= |whole|
  {
    if n == 0 then None else Some(whole[n - 1].id)
  }

  /** Reading stands just after the first n entries, having handed out no more than the foreign ones since the start-th. */
  ghost predicate Reached(r: Reader, whole: seq<Message>, start: nat, p: Progress, n: nat) {
    start <= n <= |whole| && 0 < n && p.resume == IdAt(whole, n) && |p.handed| <= |Mine(r, whole[start..n])|
  }

  /** And every one of them, in order. */
  ghost predicate StandsAt(r: Reader, whole: seq<Message>, start: nat, p: Progress, n: nat) {
    start <= n <= |whole| && 0 < n && p.resume == IdAt(whole, n) && p.handed == Mine(r, whole[start..n])
  }

  lemma {:induction false} MineSplit(r: Reader, whole: seq<Message>, a: nat, b: nat, c: nat)
    requires a <= b <= c <= |whole|
    ensures Mine(r, whole[a..c]) == Mine(r, whole[a..b]) + Mine(r, whole[b..c])
  {
    assert whole[a..c] == whole[a..b] + whole[b..c];
    MineConcat(r, whole[a..b], whole[b..c]);
  }

  lemma {:induction false} MineFirst(r: Reader, whole: seq<Message>, a: nat, c: nat)
    requires a < c <= |whole|
    ensures Mine(r, whole[a..c]) == (if Foreign(r, whole[a]) then [whole[a]] else []) + Mine(r, whole[a + 1..c])
  {
    assert whole[a..c][1..] == whole[a + 1..c];
  }

  /** Taking a stretch of the stream, panic or not: how far it gets, and what it hands out. */
  lemma {:induction false} TakeStretch(r: Reader, whole: seq<Message>, p: Progress, a: nat, b: nat) returns (n: nat)
    requires a < b <= |whole| && !p.died
    ensures a < n <= b && TakeAll(r, p, whole[a..b]).resume == IdAt(whole, n)
    ensures TakeAll(r, p, whole[a..b]).handed == p.handed + Mine(r, whole[a..n])
    ensures if TakeAll(r, p, whole[a..b]).died then Foreign(r, whole[n - 1]) else n == b
    decreases b - a
  {
    assert whole[a..b][1..] == whole[a + 1..b];
    var p1 := Take(r, p, whole[a]);
    n := a + 1;
    assert whole[n..n] == [];
    if !p1.died && n < b {
      n := TakeStretch(r, whole, p1, a + 1, b);
    }
    MineFirst(r, whole, a, n);
  }

  lemma SameStart(h: seq<Message>, m: seq<Message>, skipped: seq<Message>, rest: seq<Message>)
    requires |h| <= |m|
    ensures h + rest == m + (skipped + rest) <==> h == m && skipped == []
  {
    var x, y := h + rest, m + (skipped + rest);
    if x == y {
      assert |h| == |m| + |skipped|;
      assert x[..|h|] == h && y[..|m|] == m;
    } else {
      assert skipped == [] ==> skipped + rest == rest;
    }
  }

  /** A stretch taken further on leaves no gap exactly when there was none and it skips no foreign entry. */
  lemma StretchFits(r: Reader, whole: seq<Message>, start: nat, p: Progress, n: nat, a: nat, b: nat) returns (n': nat)
    requires Reached(r, whole, start, p, n) && !p.died && n <= a < b <= |whole|
    ensures n < n' && Reached(r, whole, start, TakeAll(r, p, whole[a..b]), n')
    ensures StandsAt(r, whole, start, TakeAll(r, p, whole[a..b]), n') <==>
            StandsAt(r, whole, start, p, n) && Mine(r, whole[n..a]) == []
  {
    n' := TakeStretch(r, whole, p, a, b);
    MineSplit(r, whole, start, n, n');
    MineSplit(r, whole, n, a, n');
    SameStart(p.handed, Mine(r, whole[start..n]), Mine(r, whole[n..a]), Mine(r, whole[a..n']));
  }

  // ------------------------------------------------------- what Redis shows

  /** Redis shows the entries from the d-th to the k-th: older ones have been trimmed, though never the newest. */
  ghost predicate ShowsFrom(whole: seq<Message>, s: seq<Message>, d: nat, k: nat) {
    d <= k <= |whole| && s == whole[d..k] && (d == k ==> k == 0)
  }

  ghost predicate Shows(whole: seq<Message>, s: seq<Message>) {
    exists d, k :: ShowsFrom(whole, s, d, k)
  }

  /** A session over a stream that is appended to at one end and trimmed at the other. */
  ghost predicate OverStream(whole: seq<Message>, s: Session) {
    (s.replayed.Some? ==> Shows(whole, s.replayed.value)) && OverPolls(whole, s.polls)
  }

  ghost predicate OverPolls(whole: seq<Message>, polls: seq<Read>) {
    forall i :: 0 <= i < |polls| && polls[i].Delivered? ==> Shows(whole, polls[i].before) && Shows(whole, polls[i].after)
  }

  lemma {:induction false} SelectLast(ms: seq<Message>, m: Message, start: Start)
    ensures Select(ms + [m], start) == if InRange(start, m.id) then Select(ms, start) + [m] else Select(ms, start)
  {
    assert (ms + [m])[..|ms|] == ms;
  }

  lemma InRangeLater(start: Start, x: StreamId, y: StreamId)
    ensures InRange(start, x) && Less(x, y) ==> InRange(start, y)
  {
  }

  /** A range of what is shown is its end. */
  lemma {:induction false} RangeShown(whole: seq<Message>, d: nat, k: nat, start: Start) returns (a: nat)
    requires Stream(whole) && d <= k <= |whole|
    ensures d <= a <= k && Select(whole[d..k], start) == whole[a..k]
    ensures forall i :: d <= i < k ==> (InRange(start, whole[i].id) <==> a <= i)
    decreases k - d
  {
    a := d;
    if d < k {
      assert whole[d..k][..k - 1 - d] == whole[d..k - 1];
      a := RangeShown(whole, d, k - 1, start);
      InRangeLater(start, whole[a].id, whole[k - 1].id);
      if InRange(start, whole[k - 1].id) {
        assert whole[a..k] == whole[a..k - 1] + [whole[k - 1]];
      } else {
        a := k;
      }
    }
  }

  lemma LaterAt(whole: seq<Message>, n: nat, i: nat)
    requires Stream(whole) && 0 < n <= |whole| && i < |whole|
    ensures Less(whole[n - 1].id, whole[i].id) <==> n <= i
  {
  }

  lemma AfterAt(whole: seq<Message>, n: nat, d: nat, k: nat, a: nat)
    requires Stream(whole) && 0 < n <= |whole| && d <= a <= k <= |whole|
    requires forall i :: d <= i < k ==> (InRange(AfterId(whole[n - 1].id), whole[i].id) <==> a <= i)
    ensures if a == k then k <= n || d == k else a == if n <= d then d else n
  {
    if a < k {
      LaterAt(whole, n, a);
      LaterAt(whole, n, d);
      if d <= n < k {
        LaterAt(whole, n, n);
      }
    } else if d < k {
      LaterAt(whole, n, k - 1);
    }
  }

  /** The id an XREAD reads on from. */
  function ReadsFrom(before: seq<Message>, resume: Option<StreamId>): Option<StreamId> {
    if resume.Some? || before == [] then resume else Some(before[|before| - 1].id)
  }

  /** What a read past the n-th entry brings: a stretch of the stream, from there or from the oldest entry shown. */
  lemma ReadShown(whole: seq<Message>, before: seq<Message>, resume: Option<StreamId>, n: nat, after: seq<Message>,
        d: nat, k: nat) returns (a: nat, b: nat)
    requires Stream(whole) && n <= |whole| && ReadsFrom(before, resume) == IdAt(whole, n) && ShowsFrom(whole, after, d, k)
    ensures a <= b <= |whole| && XRead(before, after, resume) == whole[a..b]
    ensures if a == b then k <= n else a == if n <= d then d else n
  {
    if n == 0 {
      a := d;
    } else {
      a := RangeShown(whole, d, k, AfterId(whole[n - 1].id));
      AfterAt(whole, n, d, k, a);
    }
    b := a + |XRead(before, after, resume)|;
  }

  // ------------------------------------------------------- an apply that panics

  /** Only the last entry handed out can be one whose apply panics, and it is exactly when the Run dies. */
  ghost predicate EndsAtPoison(r: Reader, p: Progress) {
    && (forall i :: 0 <= i < |p.handed| - 1 ==> p.handed[i].id !in r.poison)
    && (p.died <==> p.handed != [] && p.handed[|p.handed| - 1].id in r.poison)
  }

  lemma {:induction false} TakeAllEnds(r: Reader, p: Progress, batch: seq<Message>)
    requires EndsAtPoison(r, p)
    ensures EndsAtPoison(r, TakeAll(r, p, batch))
    decreases |batch|
  {
    if !p.died && batch != [] {
      TakeAllEnds(r, Take(r, p, batch[0]), batch[1..]);
    }
  }

  lemma {:induction false} ReadAllEnds(r: Reader, p: Progress, polls: seq<Read>)
    requires EndsAtPoison(r, p)
    ensures EndsAtPoison(r, ReadAll(r, p, polls))
    decreases |polls|
  {
    if !p.died && polls != [] && !polls[0].ReadError? {
      if polls[0].Timeout? {
        ReadAllEnds(r, p, polls[1..]);
      } else {
        var batch := XRead(polls[0].before, polls[0].after, p.resume);
        TakeAllEnds(r, p, batch);
        ReadAllEnds(r, TakeAll(r, p, batch), polls[1..]);
      }
    }
  }

  /**
   A Run ends at the first entry whose apply panics and at no other, and the resume point is then
   that entry: by AtMostOnce no later Run is handed it again.
   */
  lemma PanicEndsRun(r: Reader, resume: Option<StreamId>, s: Session)
    requires SessionOk(s)
    ensures var p := RunOnce(r, resume, s);
            && (forall i :: 0 <= i < |p.handed| - 1 ==> p.handed[i].id !in r.poison)
            && (p.died <==> p.handed != [] && p.handed[|p.handed| - 1].id in r.poison)
            && (p.died ==> p.resume.Some? && !Less(p.resume.value, p.handed[|p.handed| - 1].id))
  {
    var p := Progress(resume, [], false);
    if s.replayed.Some? && !StartAt(r, resume, s.now).NoId? {
      var msgs := Select(s.replayed.value, StartAt(r, resume, s.now));
      TakeAllEnds(r, p, msgs);
      ReadAllEnds(r, TakeAll(r, p, msgs), s.polls);
    }
    RunAdvances(r, resume, s);
    var q := RunOnce(r, resume, s);
    if q.died {
      assert Handed(r, resume, q.resume, q.handed[|q.handed| - 1]);
    }
  }
}
