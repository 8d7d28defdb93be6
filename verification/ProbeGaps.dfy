/**
 What a restart skips and what it goes back for (healthcheck/stream.go, Run and replayID):
 exactly when every foreign entry is handed out once, when an entry older than the replay
 window is, and when nothing ever is.
 */
module ProbeGaps {
  import opened Prelude
  import opened ProbeIds
  import opened ProbeStream
  import opened ProbeRuns

  // -------------------------------------------------------------- what is skipped

  /** What was handed out is every foreign entry from the n-th on, as far as reading got. */
  ghost predicate Gapless(r: Reader, whole: seq<Message>, n: nat, p: Progress) {
    exists n' :: StandsAt(r, whole, n, p, n')
  }

  /** No foreign entry lies past a resume point and before an id. */
  ghost predicate NothingBetween(r: Reader, whole: seq<Message>, at: Option<StreamId>, w: StreamId) {
    forall i :: 0 <= i < |whole| && Past(at, whole[i].id) && Less(whole[i].id, w) ==> !Foreign(r, whole[i])
  }

  /** Trimming has taken no foreign entry past the resume point. */
  ghost predicate Kept(r: Reader, whole: seq<Message>, at: Option<StreamId>, shown: seq<Message>) {
    shown == [] || NothingBetween(r, whole, at, shown[0].id)
  }

  /** Nor has it when any of the reads is made. */
  ghost predicate ReadsKept(r: Reader, whole: seq<Message>, p: Progress, polls: seq<Read>)
    decreases |polls|
  {
    p.died || polls == [] ||
    match polls[0]
    case ReadError => true
    case Timeout => ReadsKept(r, whole, p, polls[1..])
    case Delivered(before, after) =>
      && Kept(r, whole, ReadsFrom(before, p.resume), after)
      && ReadsKept(r, whole, TakeAll(r, p, XRead(before, after, p.resume)), polls[1..])
  }

  /** The replay begins at the resume point, brings nothing, or jumps over nothing foreign. */
  ghost predicate ReplayKept(r: Reader, whole: seq<Message>, at: StreamId, s: Session)
    requires s.replayed.Some?
  {
    var window, shown := ReplayId(r, s.now), s.replayed.value;
    if IsBefore(at, window) then
      || Select(shown, FromId(window.value)) == []
      || (NothingBetween(r, whole, Some(at), window.value) && Kept(r, whole, Some(at), shown))
    else
      Kept(r, whole, Some(at), shown)
  }

  /** Where reading stands after the replay. */
  function Replayed(r: Reader, resume: Option<StreamId>, s: Session): Progress
    requires s.replayed.Some?
  {
    TakeAll(r, Progress(resume, [], false), Select(s.replayed.value, StartAt(r, resume, s.now)))
  }

  /** A Run that skips no foreign entry: its replay fails, or neither the replay nor any read jumps over one. */
  ghost predicate GapFree(r: Reader, whole: seq<Message>, at: StreamId, s: Session) {
    s.replayed.None? || (ReplayKept(r, whole, at, s) && ReadsKept(r, whole, Replayed(r, Some(at), s), s.polls))
  }

  lemma {:induction false} MineNone(r: Reader, ms: seq<Message>)
    ensures Mine(r, ms) == [] <==> forall i :: 0 <= i < |ms| ==> !Foreign(r, ms[i])
    decreases |ms|
  {
    if ms != [] {
      MineNone(r, ms[1..]);
      assert forall i :: 0 < i < |ms| ==> ms[i] == ms[1..][i - 1];
      assert !Foreign(r, ms[0]) && (forall i :: 0 <= i < |ms[1..]| ==> !Foreign(r, ms[1..][i])) ==>
             forall i :: 0 <= i < |ms| ==> !Foreign(r, ms[i]);
      assert forall i :: 0 <= i < |ms[1..]| ==> ms[1..][i] == ms[i + 1];
    }
  }

  /** What lies between, by position. */
  lemma {:induction false} BetweenAt(r: Reader, whole: seq<Message>, n: nat, j: nat, w: StreamId)
    requires Stream(whole) && n <= j <= |whole|
    requires forall i :: 0 <= i < |whole| ==> (Less(whole[i].id, w) <==> i < j)
    ensures NothingBetween(r, whole, IdAt(whole, n), w) <==> Mine(r, whole[n..j]) == []
  {
    MineNone(r, whole[n..j]);
    assert forall i :: 0 <= i < |whole| ==> (Past(IdAt(whole, n), whole[i].id) <==> i >= n);
    if Mine(r, whole[n..j]) == [] {
      assert forall i :: n <= i < j ==> whole[i] == whole[n..j][i - n];
    }
  }

  /** Nothing lies between entries the other way round. */
  lemma NoneBetween(r: Reader, whole: seq<Message>, n: nat, d: nat)
    requires Stream(whole) && d <= n <= |whole| && d < |whole|
    ensures NothingBetween(r, whole, IdAt(whole, n), whole[d].id)
  {
  }

  /** Trimming, by position. */
  lemma {:induction false} KeptAt(r: Reader, whole: seq<Message>, n: nat, shown: seq<Message>, d: nat, k: nat)
    requires Stream(whole) && n <= |whole| && ShowsFrom(whole, shown, d, k)
    ensures Kept(r, whole, IdAt(whole, n), shown) <==> shown == [] || d <= n || Mine(r, whole[n..d]) == []
  {
    if shown != [] {
      assert shown[0] == whole[d];
      if d <= n {
        NoneBetween(r, whole, n, d);
      } else {
        BetweenAt(r, whole, n, d, whole[d].id);
      }
    }
  }

  /** Two readings that stand at the same entry stand at the same place. */
  lemma SamePlace(r: Reader, whole: seq<Message>, start: nat, p: Progress, n: nat)
    requires Stream(whole) && 0 < n <= |whole| && p.resume == IdAt(whole, n)
    ensures Gapless(r, whole, start, p) <==> StandsAt(r, whole, start, p, n)
  {
    assert forall i, j :: 0 <= i < j < |whole| ==> whole[i].id != whole[j].id;
  }

  // ------------------------------------------------------------- one Run

  /** A read leaves no gap exactly when there was none and nothing foreign past it was trimmed. */
  lemma ReadFits(r: Reader, whole: seq<Message>, start: nat, p: Progress, n: nat, before: seq<Message>,
        after: seq<Message>) returns (n': nat)
    requires Stream(whole) && Reached(r, whole, start, p, n) && !p.died && Shows(whole, after)
    ensures n <= n' && Reached(r, whole, start, TakeAll(r, p, XRead(before, after, p.resume)), n')
    ensures StandsAt(r, whole, start, TakeAll(r, p, XRead(before, after, p.resume)), n') <==>
            StandsAt(r, whole, start, p, n) && Kept(r, whole, p.resume, after)
  {
    var d: nat, k: nat :| ShowsFrom(whole, after, d, k);
    var a, b := ReadShown(whole, before, p.resume, n, after, d, k);
    KeptAt(r, whole, n, after, d, k);
    if a == b {
      n' := n;
    } else {
      assert a == n ==> whole[n..a] == [];
      n' := StretchFits(r, whole, start, p, n, a, b);
    }
  }

  lemma {:induction false} ReadsFit(r: Reader, whole: seq<Message>, start: nat, p: Progress, n: nat,
        polls: seq<Read>) returns (n': nat)
    requires Stream(whole) && Reached(r, whole, start, p, n) && OverPolls(whole, polls)
    ensures n <= n' && Reached(r, whole, start, ReadAll(r, p, polls), n')
    ensures StandsAt(r, whole, start, ReadAll(r, p, polls), n') <==>
            StandsAt(r, whole, start, p, n) && ReadsKept(r, whole, p, polls)
    decreases |polls|
  {
    if p.died || polls == [] || polls[0].ReadError? {
      n' := n;
    } else if polls[0].Timeout? {
      n' := ReadsFit(r, whole, start, p, n, polls[1..]);
    } else {
      var batch := XRead(polls[0].before, polls[0].after, p.resume);
      var mid := ReadFits(r, whole, start, p, n, polls[0].before, polls[0].after);
      n' := ReadsFit(r, whole, start, TakeAll(r, p, batch), mid, polls[1..]);
    }
  }

  /** The window's start in what is shown, by position. */
  lemma {:induction false} WindowAt(r: Reader, whole: seq<Message>, n: nat, shown: seq<Message>, d: nat, k: nat, w: StreamId, a: nat)
    requires Stream(whole) && 0 < n <= |whole| && ShowsFrom(whole, shown, d, k) && Less(whole[n - 1].id, w) && d <= a < k
    requires forall i :: d <= i < k ==> (InRange(FromId(w), whole[i].id) <==> a <= i)
    ensures n <= a
    ensures Mine(r, whole[n..a]) == [] <==>
            NothingBetween(r, whole, IdAt(whole, n), w) && Kept(r, whole, IdAt(whole, n), shown)
  {
    var at := IdAt(whole, n);
    assert shown[0] == whole[d];
    assert !Less(whole[a].id, w);
    LaterAt(whole, n, a);
    BetweenAt(r, whole, n, a, whole[a].id);
    forall i | 0 <= i < |whole|
      ensures Less(whole[i].id, whole[a].id) <==> Less(whole[i].id, w) || Less(whole[i].id, whole[d].id)
    {
      assert d <= i < k ==> (InRange(FromId(w), whole[i].id) <==> a <= i);
    }
  }

  lemma ReplayFits(r: Reader, whole: seq<Message>, n: nat, s: Session) returns (n': nat)
    requires Stream(whole) && 0 < n <= |whole| && s.replayed.Some? && Shows(whole, s.replayed.value)
    ensures n <= n' && Reached(r, whole, n, Replayed(r, IdAt(whole, n), s), n')
    ensures StandsAt(r, whole, n, Replayed(r, IdAt(whole, n), s), n') <==> ReplayKept(r, whole, whole[n - 1].id, s)
  {
    var at, shown, window := whole[n - 1].id, s.replayed.value, ReplayId(r, s.now);
    var p := Progress(Some(at), [], false);
    assert whole[n..n] == [];
    assert StandsAt(r, whole, n, p, n);
    var d: nat, k: nat :| ShowsFrom(whole, shown, d, k);
    var a := RangeShown(whole, d, k, StartAt(r, Some(at), s.now));
    n' := n;
    if IsBefore(at, window) {
      if a < k {
        WindowAt(r, whole, n, shown, d, k, window.value, a);
        n' := StretchFits(r, whole, n, p, n, a, k);
      }
    } else {
      AfterAt(whole, n, d, k, a);
      KeptAt(r, whole, n, shown, d, k);
      if a < k {
        assert a == n ==> whole[n..a] == [];
        n' := StretchFits(r, whole, n, p, n, a, k);
      }
    }
  }

  lemma RunFits(r: Reader, whole: seq<Message>, n: nat, s: Session) returns (n': nat)
    requires Stream(whole) && 0 < n <= |whole| && OverStream(whole, s)
    ensures n <= n' && Reached(r, whole, n, RunOnce(r, IdAt(whole, n), s), n')
    ensures StandsAt(r, whole, n, RunOnce(r, IdAt(whole, n), s), n') <==> GapFree(r, whole, whole[n - 1].id, s)
  {
    if s.replayed.None? {
      assert whole[n..n] == [];
      n' := n;
    } else {
      var mid := ReplayFits(r, whole, n, s);
      n' := ReadsFit(r, whole, n, Replayed(r, IdAt(whole, n), s), mid, s.polls);
    }
  }

  /** A Run leaves no gap exactly when it skips no foreign entry. */
  lemma RunGapsExactly(r: Reader, whole: seq<Message>, n: nat, s: Session)
    requires Stream(whole) && 0 < n <= |whole| && OverStream(whole, s)
    ensures Gapless(r, whole, n, RunOnce(r, Some(whole[n - 1].id), s)) <==> GapFree(r, whole, whole[n - 1].id, s)
  {
    var n' := RunFits(r, whole, n, s);
    SamePlace(r, whole, n, RunOnce(r, IdAt(whole, n), s), n');
  }

  /** For one: stopped at 5-0, started again when the window begins at 90-0, and never handed 50-0. */
  lemma RestartSkips(r: Reader, whole: seq<Message>)
    requires r.self == "a" && r.replay == 10 && r.poison == {}
    requires whole == [Message(StreamId(5, 0), Malformed), Message(StreamId(50, 0), Probe("b", 1)), Message(StreamId(95, 0), Probe("b", 2))]
    ensures !Gapless(r, whole, 1, RunOnce(r, Some(StreamId(5, 0)), Session(100, Some(whole), [])))
  {
    var s := Session(100, Some(whole), []);
    assert ShowsFrom(whole, whole, 0, 3);
    assert Foreign(r, whole[1]) && Past(Some(StreamId(5, 0)), whole[1].id) && Less(whole[1].id, StreamId(90, 0));
    SelectLast(whole[..2], whole[2], FromId(StreamId(90, 0)));
    assert whole == whole[..2] + [whole[2]];
    RunGapsExactly(r, whole, 1, s);
  }

  /** And one with the resume point in the window: 96-0 was trimmed before the restart. */
  lemma TrimmedSkipped(r: Reader, whole: seq<Message>)
    requires r.self == "a" && r.replay == 10 && r.poison == {}
    requires whole == [Message(StreamId(95, 0), Malformed), Message(StreamId(96, 0), Probe("b", 1)), Message(StreamId(97, 0), Probe("b", 2))]
    ensures !Gapless(r, whole, 1, RunOnce(r, Some(StreamId(95, 0)), Session(100, Some(whole[2..]), [])))
  {
    var s := Session(100, Some(whole[2..]), []);
    assert ShowsFrom(whole, whole[2..], 2, 3);
    assert Foreign(r, whole[1]) && Past(Some(StreamId(95, 0)), whole[1].id) && Less(whole[1].id, whole[2..][0].id);
    RunGapsExactly(r, whole, 1, s);
  }

  // --------------------------------------------------------------- Run after Run

  /** Two stretches of reading, one after the other, leave no gap exactly when neither does. */
  lemma StretchesJoin(r: Reader, whole: seq<Message>, start: nat, a: Progress, m: nat, b: Progress, n: nat)
    requires Reached(r, whole, start, a, m) && Reached(r, whole, m, b, n)
    ensures Reached(r, whole, start, Progress(b.resume, a.handed + b.handed, b.died), n)
    ensures StandsAt(r, whole, start, Progress(b.resume, a.handed + b.handed, b.died), n) <==>
            StandsAt(r, whole, start, a, m) && StandsAt(r, whole, m, b, n)
  {
    MineSplit(r, whole, start, m, n);
    SameParts(a.handed, b.handed, Mine(r, whole[start..m]), Mine(r, whole[m..n]));
  }

  lemma SameParts(a: seq<Message>, b: seq<Message>, c: seq<Message>, d: seq<Message>)
    requires |a| <= |c| && |b| <= |d|
    ensures a + b == c + d <==> a == c && b == d
  {
    var x, y := a + b, c + d;
    if x == y {
      assert |a| == |c|;
      assert x[..|a|] == a && y[..|c|] == c && x[|a|..] == b && y[|c|..] == d;
    }
  }

  /** Every Run, from where the one before it stopped, skips no foreign entry. */
  ghost predicate NoGaps(r: Reader, whole: seq<Message>, resume: Option<StreamId>, sessions: seq<Session>)
    decreases |sessions|
  {
    sessions == [] ||
    var pre := sessions[..|sessions| - 1];
    var at := RunMany(r, resume, pre).resume;
    NoGaps(r, whole, resume, pre) && at.Some? && GapFree(r, whole, at.value, sessions[|sessions| - 1])
  }

  lemma {:induction false} RunsFit(r: Reader, whole: seq<Message>, n: nat, sessions: seq<Session>) returns (n': nat)
    requires Stream(whole) && 0 < n <= |whole|
    requires forall i :: 0 <= i < |sessions| ==> OverStream(whole, sessions[i])
    ensures n <= n' && Reached(r, whole, n, RunMany(r, IdAt(whole, n), sessions), n')
    ensures StandsAt(r, whole, n, RunMany(r, IdAt(whole, n), sessions), n') <==> NoGaps(r, whole, IdAt(whole, n), sessions)
    decreases |sessions|
  {
    if sessions == [] {
      assert whole[n..n] == [];
      n' := n;
    } else {
      var pre, last := sessions[..|sessions| - 1], sessions[|sessions| - 1];
      var m := RunsFit(r, whole, n, pre);
      n' := RunFits(r, whole, m, last);
      StretchesJoin(r, whole, n, RunMany(r, IdAt(whole, n), pre), m, RunOnce(r, IdAt(whole, m), last), n');
    }
  }

  /**
   Exactly once: over any sequence of Runs on a stream appended to at one end and trimmed at the
   other, whatever reads fail and wherever apply panics, what is handed out is every foreign entry
   from the first resume point to the last, each once and in order, if and only if every Run skips
   none.
   */
  lemma ExactlyOnce(r: Reader, whole: seq<Message>, n: nat, sessions: seq<Session>)
    requires Stream(whole) && 0 < n <= |whole|
    requires forall i :: 0 <= i < |sessions| ==> OverStream(whole, sessions[i])
    ensures Gapless(r, whole, n, RunMany(r, Some(whole[n - 1].id), sessions)) <==> NoGaps(r, whole, Some(whole[n - 1].id), sessions)
  {
    var n' := RunsFit(r, whole, n, sessions);
    SamePlace(r, whole, n, RunMany(r, IdAt(whole, n), sessions), n');
  }

  lemma {:induction false} MineExactly(r: Reader, ms: seq<Message>, m: Message)
    ensures m in Mine(r, ms) <==> m in ms && m.body.Probe? && m.body.producer != r.self
    decreases |ms|
  {
    if ms != [] {
      MineExactly(r, ms[1..], m);
      assert ms == [ms[0]] + ms[1..];
    }
  }

  /** So, where no Run leaves a gap, every entry of another producer up to where reading got is handed out, and nothing else. */
  lemma NothingMissed(r: Reader, whole: seq<Message>, n: nat, sessions: seq<Session>) returns (n': nat)
    requires Stream(whole) && 0 < n <= |whole|
    requires forall i :: 0 <= i < |sessions| ==> OverStream(whole, sessions[i])
    requires NoGaps(r, whole, Some(whole[n - 1].id), sessions)
    ensures var p := RunMany(r, Some(whole[n - 1].id), sessions);
            && n <= n' <= |whole| && p.resume == Some(whole[n' - 1].id)
            && forall m :: m in p.handed <==> m in whole[n..n'] && m.body.Probe? && m.body.producer != r.self
  {
    n' := RunsFit(r, whole, n, sessions);
    forall m
      ensures m in Mine(r, whole[n..n']) <==> m in whole[n..n'] && m.body.Probe? && m.body.producer != r.self
    {
      MineExactly(r, whole[n..n'], m);
    }
  }

  // ------------------------------------------------------------ the first Run

  /** Taking a stretch from its first entry on. */
  lemma TakeFrom(r: Reader, whole: seq<Message>, a: nat, b: nat, resume: Option<StreamId>) returns (n: nat)
    requires a < b <= |whole|
    ensures a < n && StandsAt(r, whole, a, TakeAll(r, Progress(resume, [], false), whole[a..b]), n)
  {
    n := TakeStretch(r, whole, Progress(resume, [], false), a, b);
  }

  /**
   Without a resume point a Run hands out every foreign entry from the window's start, or from the
   oldest one not trimmed when that is later, as far as it gets, if and only if no read jumps.
   */
  lemma FirstRun(r: Reader, whole: seq<Message>, s: Session) returns (a: nat)
    requires Stream(whole) && OverStream(whole, s) && s.replayed.Some? && ReplayId(r, s.now).Some?
    requires Select(s.replayed.value, FromId(ReplayId(r, s.now).value)) != []
    ensures Gapless(r, whole, a, RunOnce(r, None, s)) <==> ReadsKept(r, whole, Replayed(r, None, s), s.polls)
    ensures forall i :: 0 <= i < |whole| ==>
                          (i < a <==> Less(whole[i].id, ReplayId(r, s.now).value) || Less(whole[i].id, s.replayed.value[0].id))
  {
    var w, shown := ReplayId(r, s.now).value, s.replayed.value;
    var d: nat, k: nat :| ShowsFrom(whole, shown, d, k);
    a := RangeShown(whole, d, k, FromId(w));
    var n := TakeFrom(r, whole, a, k, None);
    var n' := ReadsFit(r, whole, a, Replayed(r, None, s), n, s.polls);
    SamePlace(r, whole, a, RunOnce(r, None, s), n');
    forall i | 0 <= i < |whole|
      ensures i < a <==> Less(whole[i].id, w) || Less(whole[i].id, shown[0].id)
    {
      assert shown[0] == whole[d] && InRange(FromId(w), whole[a].id);
      assert d <= i < k ==> (InRange(FromId(w), whole[i].id) <==> a <= i);
    }
  }

  /** The stream held its first e entries when this was shown. */
  ghost predicate EndsAt(whole: seq<Message>, shown: seq<Message>, e: nat) {
    exists d :: ShowsFrom(whole, shown, d, e)
  }

  /** The first read that brings something. */
  lemma FirstRead(r: Reader, whole: seq<Message>, before: seq<Message>, after: seq<Message>) returns (e: nat, n: nat)
    requires Stream(whole) && Shows(whole, before) && Shows(whole, after) && XRead(before, after, None) != []
    ensures var p := TakeAll(r, Progress(None, [], false), XRead(before, after, None));
            && EndsAt(whole, before, e) && Reached(r, whole, e, p, n)
            && (StandsAt(r, whole, e, p, n) <==> Kept(r, whole, ReadsFrom(before, None), after))
  {
    var d: nat, k: nat :| ShowsFrom(whole, before, d, k);
    e := k;
    assert before != [] ==> before[|before| - 1] == whole[k - 1];
    var d': nat, k': nat :| ShowsFrom(whole, after, d', k');
    var a, b := ReadShown(whole, before, None, e, after, d', k');
    KeptAt(r, whole, e, after, d', k');
    n := TakeStretch(r, whole, Progress(None, [], false), a, b);
    MineSplit(r, whole, e, a, n);
    SameStart([], [], Mine(r, whole[e..a]), Mine(r, whole[a..n]));
    assert a == e ==> whole[e..a] == [];
  }

  /** A read that brings nothing past what the stream held when it was made skips nothing. */
  lemma NothingRead(r: Reader, whole: seq<Message>, before: seq<Message>, after: seq<Message>)
    requires Stream(whole) && Shows(whole, before) && Shows(whole, after) && XRead(before, after, None) == []
    ensures Kept(r, whole, ReadsFrom(before, None), after)
  {
    var d: nat, e: nat :| ShowsFrom(whole, before, d, e);
    assert before != [] ==> before[|before| - 1] == whole[e - 1];
    var d': nat, k': nat :| ShowsFrom(whole, after, d', k');
    var a, b := ReadShown(whole, before, None, e, after, d', k');
    KeptAt(r, whole, e, after, d', k');
  }

  lemma {:induction false} FirstReads(r: Reader, whole: seq<Message>, polls: seq<Read>) returns (i: nat, e: nat)
    requires Stream(whole) && OverPolls(whole, polls)
    ensures var none := Progress(None, [], false);
            var p := ReadAll(r, none, polls);
            p == none || (&& i < |polls| && polls[i].Delivered? && EndsAt(whole, polls[i].before, e)
                          && (Gapless(r, whole, e, p) <==> ReadsKept(r, whole, none, polls)))
    decreases |polls|
  {
    i, e := 0, 0;
    var none := Progress(None, [], false);
    if polls != [] && !polls[0].ReadError? {
      var rest := polls[1..];
      if polls[0].Timeout? {
        i, e := FirstReads(r, whole, rest);
        i := i + 1;
      } else {
        var before, after := polls[0].before, polls[0].after;
        if XRead(before, after, None) == [] {
          NothingRead(r, whole, before, after);
          i, e := FirstReads(r, whole, rest);
          i := i + 1;
        } else {
          var n;
          e, n := FirstRead(r, whole, before, after);
          var n' := ReadsFit(r, whole, e, TakeAll(r, none, XRead(before, after, None)), n, rest);
          SamePlace(r, whole, e, ReadAll(r, none, polls), n');
        }
      }
    }
  }

  /**
   A first Run with an empty replay begins after what the stream held when the first read that
   brings something was made: from there it skips nothing if and only if no read jumps.
   */
  lemma FirstRunEmpty(r: Reader, whole: seq<Message>, s: Session) returns (i: nat, e: nat)
    requires Stream(whole) && OverStream(whole, s) && s.replayed.Some? && ReplayId(r, s.now).Some?
    requires Select(s.replayed.value, FromId(ReplayId(r, s.now).value)) == []
    ensures var none := Progress(None, [], false);
            var p := RunOnce(r, None, s);
            p == none || (&& i < |s.polls| && s.polls[i].Delivered? && EndsAt(whole, s.polls[i].before, e)
                          && (Gapless(r, whole, e, p) <==> ReadsKept(r, whole, none, s.polls)))
  {
    i, e := FirstReads(r, whole, s.polls);
  }

  // ------------------------------------------------- entries before the window

  ghost predicate HandsOlder(p: Progress, w: StreamId) {
    exists i :: 0 <= i < |p.handed| && Less(p.handed[i].id, w)
  }

  /** What was trimmed when the one was shown is not in the other. */
  predicate StaysTrimmed(shown: seq<Message>, later: seq<Message>) {
    shown != [] && later != [] ==> !Less(later[0].id, shown[0].id)
  }

  ghost predicate LaterReads(whole: seq<Message>, shown: seq<Message>, polls: seq<Read>) {
    OverPolls(whole, polls) && forall i :: 0 <= i < |polls| && polls[i].Delivered? ==> StaysTrimmed(shown, polls[i].after)
  }

  /** Some way the reads go, the Run hands out an entry from before its window. */
  ghost predicate MayHandOlder(r: Reader, whole: seq<Message>, resume: StreamId, now: int, shown: seq<Message>,
        w: StreamId) {
    exists polls :: LaterReads(whole, shown, polls) && HandsOlder(RunOnce(r, Some(resume), Session(now, Some(shown), polls)), w)
  }

  /** The stream has, or will have, a foreign entry past the resume point and before the window. */
  ghost predicate OldForeign(r: Reader, whole: seq<Message>, at: StreamId, shown: seq<Message>, w: StreamId) {
    exists m :: m in Untrimmed(whole, shown) && Less(at, m.id) && Less(m.id, w) && Foreign(r, m)
  }

  ghost function Untrimmed(whole: seq<Message>, shown: seq<Message>): set<Message> {
    set m | m in whole && (shown == [] || !Less(m.id, shown[0].id))
  }

  /** Only what is shown is handed out. */
  lemma {:induction false} TakeAllFrom(r: Reader, p: Progress, batch: seq<Message>, from: set<Message>)
    requires forall m :: m in p.handed || m in batch ==> m in from
    ensures forall m :: m in TakeAll(r, p, batch).handed ==> m in from
    decreases |batch|
  {
    if !p.died && batch != [] {
      TakeAllFrom(r, Take(r, p, batch[0]), batch[1..], from);
    }
  }

  lemma ShownUntrimmed(whole: seq<Message>, shown: seq<Message>, later: seq<Message>)
    requires Stream(whole) && Shows(whole, later) && StaysTrimmed(shown, later)
    ensures forall m :: m in later ==> m in Untrimmed(whole, shown)
  {
    var d: nat, k: nat :| ShowsFrom(whole, later, d, k);
    forall m | m in later
      ensures m in Untrimmed(whole, shown)
    {
      var i :| 0 <= i < |later| && later[i] == m;
      assert m == whole[d + i] && later[0] == whole[d];
    }
  }

  lemma XReadAmong(before: seq<Message>, after: seq<Message>, resume: Option<StreamId>, m: Message)
    requires Stream(after) && m in XRead(before, after, resume)
    ensures m in after
  {
    if resume.Some? {
      SelectMeaning(after, AfterId(resume.value));
    } else if before != [] {
      SelectMeaning(after, AfterId(before[|before| - 1].id));
    }
  }

  lemma ShownStream(whole: seq<Message>, shown: seq<Message>)
    requires Stream(whole) && Shows(whole, shown)
    ensures Stream(shown)
  {
  }

  lemma {:induction false} ReadAllFrom(r: Reader, whole: seq<Message>, shown: seq<Message>, p: Progress, polls: seq<Read>)
    requires Stream(whole) && LaterReads(whole, shown, polls)
    requires forall m :: m in p.handed ==> m in Untrimmed(whole, shown)
    ensures forall m :: m in ReadAll(r, p, polls).handed ==> m in Untrimmed(whole, shown)
    decreases |polls|
  {
    if !p.died && polls != [] && !polls[0].ReadError? {
      if polls[0].Timeout? {
        ReadAllFrom(r, whole, shown, p, polls[1..]);
      } else {
        var batch := XRead(polls[0].before, polls[0].after, p.resume);
        BatchFrom(whole, shown, polls[0].before, polls[0].after, p.resume);
        TakeAllFrom(r, p, batch, Untrimmed(whole, shown));
        ReadAllFrom(r, whole, shown, TakeAll(r, p, batch), polls[1..]);
      }
    }
  }

  lemma BatchFrom(whole: seq<Message>, shown: seq<Message>, before: seq<Message>, after: seq<Message>, resume: Option<StreamId>)
    requires Stream(whole) && Shows(whole, after) && StaysTrimmed(shown, after)
    ensures forall m :: m in XRead(before, after, resume) ==> m in Untrimmed(whole, shown)
  {
    ShownStream(whole, after);
    ShownUntrimmed(whole, shown, after);
    forall m | m in XRead(before, after, resume)
      ensures m in Untrimmed(whole, shown)
    {
      XReadAmong(before, after, resume, m);
    }
  }

  /** Reading is past w, and has been since it handed out anything. */
  ghost predicate Since(p: Progress, w: StreamId) {
    p.resume.Some? && !Less(p.resume.value, w) && forall i :: 0 <= i < |p.handed| ==> !Less(p.handed[i].id, w)
  }

  ghost predicate AllSince(ms: seq<Message>, w: StreamId) {
    forall i :: 0 <= i < |ms| ==> !Less(ms[i].id, w)
  }

  lemma {:induction false} TakeAllSince(r: Reader, p: Progress, batch: seq<Message>, w: StreamId)
    requires (Since(p, w) || (batch != [] && p.handed == [] && !p.died)) && AllSince(batch, w)
    ensures Since(TakeAll(r, p, batch), w)
    decreases |batch|
  {
    if !p.died && batch != [] {
      TakeAllSince(r, Take(r, p, batch[0]), batch[1..], w);
    }
  }

  lemma {:induction false} ReadAllSince(r: Reader, p: Progress, polls: seq<Read>, w: StreamId)
    requires Since(p, w) && forall i :: 0 <= i < |polls| ==> ReadOk(polls[i])
    ensures Since(ReadAll(r, p, polls), w)
    decreases |polls|
  {
    if !p.died && polls != [] && !polls[0].ReadError? {
      if polls[0].Timeout? {
        ReadAllSince(r, p, polls[1..], w);
      } else {
        var batch := XRead(polls[0].before, polls[0].after, p.resume);
        ReadAhead(polls[0].before, polls[0].after, p.resume);
        forall i | 0 <= i < |batch|
          ensures !Less(batch[i].id, w)
        {
          assert Past(p.resume, batch[i].id);
        }
        TakeAllSince(r, p, batch, w);
        ReadAllSince(r, TakeAll(r, p, batch), polls[1..], w);
      }
    }
  }

  /** A replay that brings something leaves everything handed out within the window. */
  lemma {:induction false} ReplayedSince(r: Reader, resume: StreamId, s: Session, w: StreamId)
    requires SessionOk(s) && s.replayed.Some? && ReplayId(r, s.now) == Some(w) && Less(resume, w)
    requires Select(s.replayed.value, FromId(w)) != []
    ensures !HandsOlder(RunOnce(r, Some(resume), s), w)
  {
    var msgs := Select(s.replayed.value, FromId(w));
    SelectMeaning(s.replayed.value, FromId(w));
    forall i | 0 <= i < |msgs|
      ensures !Less(msgs[i].id, w)
    {
      assert msgs[i] in msgs;
    }
    TakeAllSince(r, Progress(Some(resume), [], false), msgs, w);
    ReadAllSince(r, Replayed(r, Some(resume), s), s.polls, w);
  }

  lemma OverStreamOk(whole: seq<Message>, s: Session)
    requires Stream(whole) && OverStream(whole, s)
    ensures SessionOk(s)
  {
    if s.replayed.Some? {
      ShownStream(whole, s.replayed.value);
    }
    forall i | 0 <= i < |s.polls|
      ensures ReadOk(s.polls[i])
    {
      if s.polls[i].Delivered? {
        ShownStream(whole, s.polls[i].before);
        ShownStream(whole, s.polls[i].after);
      }
    }
  }

  lemma {:induction false} OlderOnlyWhen(r: Reader, whole: seq<Message>, at: StreamId, now: int, shown: seq<Message>, polls: seq<Read>, w: StreamId)
    requires Stream(whole) && Shows(whole, shown) && LaterReads(whole, shown, polls) && ReplayId(r, now) == Some(w)
    requires HandsOlder(RunOnce(r, Some(at), Session(now, Some(shown), polls)), w)
    ensures Less(at, w) && Select(shown, FromId(w)) == [] && OldForeign(r, whole, at, shown, w)
  {
    var s := Session(now, Some(shown), polls);
    var p := RunOnce(r, Some(at), s);
    var i :| 0 <= i < |p.handed| && Less(p.handed[i].id, w);
    OverStreamOk(whole, s);
    RunAdvances(r, Some(at), s);
    assert Handed(r, Some(at), p.resume, p.handed[i]);
    if Select(shown, FromId(w)) != [] {
      ReplayedSince(r, at, s, w);
      assert false;
    }
    assert p == ReadAll(r, Progress(Some(at), [], false), polls);
    ReadAllFrom(r, whole, shown, Progress(Some(at), [], false), polls);
    assert p.handed[i] in Untrimmed(whole, shown);
  }

  // Conversely, reading all that is left of the stream over and over gets to such an entry.

  function Again(left: seq<Message>, times: nat): seq<Read> {
    if times == 0 then [] else [Delivered(left, left)] + Again(left, times - 1)
  }

  lemma {:induction false} ReadAgain(r: Reader, p: Progress, p1: Progress, left: seq<Message>, times: nat)
    requires !p.died && p1 == TakeAll(r, p, XRead(left, left, p.resume))
    ensures ReadAll(r, p, Again(left, times + 1)) == ReadAll(r, p1, Again(left, times))
  {
    assert Again(left, times + 1)[1..] == Again(left, times);
  }

  lemma {:induction false} AgainLater(whole: seq<Message>, shown: seq<Message>, d: nat, k: nat, times: nat)
    requires Stream(whole) && ShowsFrom(whole, shown, d, k) && d < |whole|
    ensures LaterReads(whole, shown, Again(whole[d..], times))
  {
    assert ShowsFrom(whole, whole[d..], d, |whole|);
    if times > 0 {
      AgainLater(whole, shown, d, k, times - 1);
    }
  }

  /** One read of the stream trimmed to its d-th entry. */
  lemma ReadsOn(r: Reader, whole: seq<Message>, d: nat, left: seq<Message>, p: Progress,
        n: nat) returns (p1: Progress, a: nat, mid: nat)
    requires Stream(whole) && d < |whole| && left == whole[d..] && 0 < n < |whole| && p.resume == IdAt(whole, n) && !p.died
    ensures p1 == TakeAll(r, p, XRead(left, left, p.resume)) && a == if n <= d then d else n
    ensures a < mid <= |whole| && p1.resume == IdAt(whole, mid) && p1.handed == p.handed + Mine(r, whole[a..mid])
    ensures p1.died ==> Foreign(r, whole[mid - 1])
  {
    var b;
    a, b := ReadShown(whole, left, p.resume, n, left, d, |whole|);
    p1 := TakeAll(r, p, whole[a..b]);
    mid := TakeStretch(r, whole, p, a, b);
  }

  lemma ReadsOnward(r: Reader, whole: seq<Message>, d: nat, left: seq<Message>, start: nat, p: Progress,
        n: nat) returns (p1: Progress, mid: nat)
    requires Stream(whole) && d <= n < |whole| && left == whole[d..] && StandsAt(r, whole, start, p, n) && !p.died
    ensures p1 == TakeAll(r, p, XRead(left, left, p.resume))
    ensures n < mid && StandsAt(r, whole, start, p1, mid) && (p1.died ==> Foreign(r, whole[mid - 1]))
  {
    var a;
    p1, a, mid := ReadsOn(r, whole, d, left, p, n);
    MineSplit(r, whole, start, n, mid);
  }

  /** Reading on and on reaches the end, or an entry whose apply panics. */
  lemma {:induction false} ReadsToEnd(r: Reader, whole: seq<Message>, d: nat, left: seq<Message>, start: nat, p: Progress,
        n: nat) returns (times: nat, q: Progress, n': nat)
    requires Stream(whole) && d < |whole| && left == whole[d..] && d <= n && StandsAt(r, whole, start, p, n) && start < n
    requires p.died ==> Foreign(r, whole[n - 1])
    ensures q == ReadAll(r, p, Again(left, times)) && StandsAt(r, whole, start, q, n') && start < n'
    ensures n' == |whole| || Foreign(r, whole[n' - 1])
    decreases |whole| - n
  {
    if n == |whole| || p.died {
      times, q, n' := 0, p, n;
    } else {
      var p1, mid := ReadsOnward(r, whole, d, left, start, p, n);
      times, q, n' := ReadsToEnd(r, whole, d, left, start, p1, mid);
      ReadAgain(r, p, p1, left, times);
      times := times + 1;
    }
  }

  lemma UntrimmedAt(whole: seq<Message>, shown: seq<Message>, d: nat, k: nat, m: Message) returns (i: nat)
    requires Stream(whole) && ShowsFrom(whole, shown, d, k) && m in Untrimmed(whole, shown)
    ensures d <= i < |whole| && whole[i] == m
  {
    i :| 0 <= i < |whole| && whole[i] == m;
    assert shown != [] ==> shown[0] == whole[d];
  }

  lemma {:induction false} OlderWhen(r: Reader, whole: seq<Message>, n: nat, now: int, shown: seq<Message>, w: StreamId)
    requires Stream(whole) && 0 < n <= |whole| && Shows(whole, shown) && ReplayId(r, now) == Some(w)
    requires Less(whole[n - 1].id, w) && Select(shown, FromId(w)) == [] && OldForeign(r, whole, whole[n - 1].id, shown, w)
    ensures MayHandOlder(r, whole, whole[n - 1].id, now, shown, w)
  {
    var at := whole[n - 1].id;
    var d: nat, k: nat :| ShowsFrom(whole, shown, d, k);
    var m :| m in Untrimmed(whole, shown) && Less(at, m.id) && Less(m.id, w) && Foreign(r, m);
    var i := UntrimmedAt(whole, shown, d, k, m);
    LaterAt(whole, n, i);
    ReadsOlder(r, whole, n, now, shown, d, k, i, w);
  }

  lemma {:induction false} ReadsOlder(r: Reader, whole: seq<Message>, n: nat, now: int, shown: seq<Message>, d: nat, k: nat, i: nat, w: StreamId)
    requires Stream(whole) && 0 < n <= i < |whole| && d <= i && ShowsFrom(whole, shown, d, k)
    requires ReplayId(r, now) == Some(w) && Less(whole[n - 1].id, w) && Select(shown, FromId(w)) == []
    requires Foreign(r, whole[i]) && Less(whole[i].id, w)
    ensures MayHandOlder(r, whole, whole[n - 1].id, now, shown, w)
  {
    var times, start, n' := ReadsLeft(r, whole, n, d, i);
    var polls := Again(whole[d..], times);
    AgainLater(whole, shown, d, k, times);
    var q := ReadAll(r, Progress(IdAt(whole, n), [], false), polls);
    OlderAmong(r, whole, start, n', q, i, w);
    EmptyReplay(r, whole[n - 1].id, now, shown, polls, w);
  }

  lemma {:induction false} EmptyReplay(r: Reader, at: StreamId, now: int, shown: seq<Message>, polls: seq<Read>, w: StreamId)
    requires ReplayId(r, now) == Some(w) && Less(at, w) && Select(shown, FromId(w)) == []
    ensures RunOnce(r, Some(at), Session(now, Some(shown), polls)) == ReadAll(r, Progress(Some(at), [], false), polls)
  {
  }

  /** From the n-th entry, with those before the d-th trimmed. */
  lemma ReadsLeft(r: Reader, whole: seq<Message>, n: nat, d: nat, i: nat) returns (times: nat, start: nat, n': nat)
    requires Stream(whole) && 0 < n <= i < |whole| && d <= i
    ensures start <= i && StandsAt(r, whole, start, ReadAll(r, Progress(IdAt(whole, n), [], false), Again(whole[d..], times)), n')
    ensures n' == |whole| || (start < n' && Foreign(r, whole[n' - 1]))
  {
    var p, left := Progress(IdAt(whole, n), [], false), whole[d..];
    var p1, q, mid;
    p1, start, mid := ReadsOn(r, whole, d, left, p, n);
    times, q, n' := ReadsToEnd(r, whole, d, left, start, p1, mid);
    ReadAgain(r, p, p1, left, times);
    times := times + 1;
  }

  lemma {:induction false} MineHas(r: Reader, ms: seq<Message>, i: nat)
    requires i < |ms| && Foreign(r, ms[i])
    ensures ms[i] in Mine(r, ms)
    decreases |ms|
  {
    if i > 0 {
      MineHas(r, ms[1..], i - 1);
    }
  }

  /** Reading that got past a foreign entry, or to one, handed out one no later than any it has yet to reach. */
  lemma OlderAmong(r: Reader, whole: seq<Message>, start: nat, n: nat, p: Progress, i: nat, w: StreamId)
    requires Stream(whole) && StandsAt(r, whole, start, p, n) && (n == |whole| || (start < n && Foreign(r, whole[n - 1])))
    requires start <= i < |whole| && Foreign(r, whole[i]) && Less(whole[i].id, w)
    ensures HandsOlder(p, w)
  {
    var at := if i < n then i else n - 1;
    assert whole[start..n][at - start] == whole[at];
    MineHas(r, whole[start..n], at - start);
    assert whole[at] in p.handed && Less(whole[at].id, w);
  }

  /**
   A Run may hand out an entry from before its window exactly when the resume point is before
   it, nothing is replayed, and an untrimmed foreign entry lies between the two.
   */
  lemma {:induction false} OlderExactlyWhen(r: Reader, whole: seq<Message>, n: nat, now: int, shown: seq<Message>, w: StreamId)
    requires Stream(whole) && 0 < n <= |whole| && Shows(whole, shown) && ReplayId(r, now) == Some(w)
    ensures MayHandOlder(r, whole, whole[n - 1].id, now, shown, w) <==>
            Less(whole[n - 1].id, w) && Select(shown, FromId(w)) == [] && OldForeign(r, whole, whole[n - 1].id, shown, w)
  {
    var at := whole[n - 1].id;
    if MayHandOlder(r, whole, at, now, shown, w) {
      var polls :| LaterReads(whole, shown, polls) && HandsOlder(RunOnce(r, Some(at), Session(now, Some(shown), polls)), w);
      OlderOnlyWhen(r, whole, at, now, shown, polls, w);
    }
    if Less(at, w) && Select(shown, FromId(w)) == [] && OldForeign(r, whole, at, shown, w) {
      OlderWhen(r, whole, n, now, shown, w);
    }
  }

  /** For one: stopped at 5-0, started again when the window begins at 90-0, and handed 50-0. */
  lemma OlderEntryHanded(r: Reader, whole: seq<Message>)
    requires r.self == "a" && r.replay == 10 && r.poison == {}
    requires whole == [Message(StreamId(5, 0), Malformed), Message(StreamId(50, 0), Probe("b", 1))]
    ensures MayHandOlder(r, whole, StreamId(5, 0), 100, whole, StreamId(90, 0))
  {
    var w := StreamId(90, 0);
    assert ShowsFrom(whole, whole, 0, 2);
    assert whole[1] in Untrimmed(whole, whole) && Foreign(r, whole[1]) && Less(whole[0].id, whole[1].id) && Less(whole[1].id, w);
    var a := RangeShown(whole, 0, 2, FromId(w));
    assert whole[0..2] == whole && !InRange(FromId(w), whole[1].id);
    OlderWhen(r, whole, 1, 100, whole, w);
  }

  // ---------------------------------------------------------- never anything

  ghost predicate StartedAt(sessions: seq<Session>, nows: seq<int>) {
    |sessions| == |nows| && forall i :: 0 <= i < |nows| ==> sessions[i].now == nows[i]
  }

  /** A fresh reader whose Runs start at these times reads nothing, whatever the stream holds and the reads do. */
  ghost predicate NeverReads(r: Reader, nows: seq<int>) {
    forall sessions :: StartedAt(sessions, nows) ==> RunMany(r, None, sessions) == Progress(None, [], false)
  }

  lemma {:induction false} NothingWithoutWindow(r: Reader, sessions: seq<Session>)
    requires forall i :: 0 <= i < |sessions| ==> ReplayId(r, sessions[i].now).None? || sessions[i].replayed.None?
    ensures RunMany(r, None, sessions) == Progress(None, [], false)
    decreases |sessions|
  {
    if sessions != [] {
      NothingWithoutWindow(r, sessions[..|sessions| - 1]);
    }
  }

  /** Whatever was read stays read. */
  lemma {:induction false} ReadStaysRead(r: Reader, resume: Option<StreamId>, sessions: seq<Session>, k: nat)
    requires k <= |sessions| && RunMany(r, resume, sessions[..k]).handed != []
    ensures RunMany(r, resume, sessions).handed != []
    decreases |sessions|
  {
    if k == |sessions| {
      assert sessions[..k] == sessions;
    } else {
      var pre := sessions[..|sessions| - 1];
      assert pre[..k] == sessions[..k];
      ReadStaysRead(r, resume, pre, k);
    }
  }

  lemma ReadsMessage(r: Reader, now: int, m: Message)
    requires ReplayId(r, now) == Some(m.id) && Foreign(r, m)
    ensures RunOnce(r, None, Session(now, Some([m]), [])).handed == [m]
  {
    assert [] + [m] == [m];
    SelectLast([], m, FromId(m.id));
    TakeOne(r, Progress(None, [], false), m);
  }

  lemma {:induction false} TakeOne(r: Reader, p: Progress, m: Message)
    requires !p.died
    ensures TakeAll(r, p, [m]) == Take(r, p, m)
  {
    assert [m][1..] == [];
  }

  lemma ReadsOne(r: Reader, nows: seq<int>, i: nat) returns (sessions: seq<Session>)
    requires i < |nows| && ReplayId(r, nows[i]).Some?
    ensures StartedAt(sessions, nows) && RunMany(r, None, sessions).handed != []
  {
    var m := Message(ReplayId(r, nows[i]).value, Probe(r.self + "+", 0));
    sessions := seq(|nows|, j requires 0 <= j < |nows| => Session(nows[j], if j == i then Some([m]) else None, []));
    NothingWithoutWindow(r, sessions[..i]);
    var upTo := sessions[..i + 1];
    assert upTo[..i] == sessions[..i] && upTo[i] == Session(nows[i], Some([m]), []);
    ReadsMessage(r, nows[i], m);
    ReadStaysRead(r, None, sessions, i + 1);
  }

  /** A fresh reader can never read anything exactly when none of its Runs has a window to start from. */
  lemma NeverReadsExactlyWhen(r: Reader, nows: seq<int>)
    ensures NeverReads(r, nows) <==> r.replay <= 0 || forall i :: 0 <= i < |nows| ==> nows[i] < r.replay
  {
    if forall i :: 0 <= i < |nows| ==> ReplayId(r, nows[i]).None? {
      forall sessions | StartedAt(sessions, nows)
        ensures RunMany(r, None, sessions) == Progress(None, [], false)
      {
        NothingWithoutWindow(r, sessions);
      }
    } else {
      var i :| 0 <= i < |nows| && ReplayId(r, nows[i]).Some?;
      var sessions := ReadsOne(r, nows, i);
    }
  }

  /** So with a replay window of zero or less the feed never reads. */
  lemma NoWindowNeverReads(r: Reader, nows: seq<int>)
    requires r.replay <= 0
    ensures NeverReads(r, nows)
  {
    NeverReadsExactlyWhen(r, nows);
  }
}
