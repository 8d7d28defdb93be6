/** Redis stream ids, "<ms>-<seq>" (healthcheck/stream.go, streamIDBefore and parseStreamID). */
module ProbeIds {
  import opened Prelude

  const UINT64 := 0x1_0000_0000_0000_0000

  datatype StreamId = StreamId(ms: nat, seqno: nat)

  predicate Digit(c: char) {
    '0' <= c <= '9'
  }

  function DigitValue(c: char): nat
    requires Digit(c)
  {
    c as int - '0' as int
  }

  function Value(s: string): nat
    requires forall i :: 0 <= i < |s| ==> Digit(s[i])
  {
    if s == "" then 0 else 10 * Value(s[..|s| - 1]) + DigitValue(s[|s| - 1])
  }

  /** strconv.ParseUint(s, 10, 64). */
  function ParseUint(s: string): Option<nat> {
    if s == "" || (exists i :: 0 <= i < |s| && !Digit(s[i])) then None
    else if Value(s) >= UINT64 then None
    else Some(Value(s))
  }

  /** strconv.FormatInt(n, 10) for n >= 0. */
  function Format(n: nat): (s: string)
    ensures s != "" && forall i :: 0 <= i < |s| ==> Digit(s[i])
  {
    if n < 10 then [(n + '0' as int) as char] else Format(n / 10) + [(n % 10 + '0' as int) as char]
  }

  function FormatId(id: StreamId): string {
    Format(id.ms) + "-" + Format(id.seqno)
  }

  /** The index of the first '-', or -1. */
  function Dash(s: string): (i: int)
    ensures -1 <= i < |s|
    ensures i >= 0 ==> s[i] == '-' && '-' !in s[..i]
    ensures i < 0 ==> '-' !in s
  {
    if s == "" then -1
    else if s[0] == '-' then 0
    else
      var i := Dash(s[1..]);
      if i < 0 then -1 else
        assert s[..i + 1] == [s[0]] + s[1..][..i];
        i + 1
  }

  function ParseId(id: string): Option<StreamId> {
    var i := Dash(id);
    if i < 0 then None
    else
      var ms, seqno := ParseUint(id[..i]), ParseUint(id[i + 1..]);
      if ms.Some? && seqno.Some? then Some(StreamId(ms.value, seqno.value)) else None
  }

  predicate Less(a: StreamId, b: StreamId) {
    a.ms < b.ms || (a.ms == b.ms && a.seqno < b.seqno)
  }

  /** An id that does not parse is never before anything. */
  predicate Before(a: string, b: string) {
    ParseId(a).Some? && ParseId(b).Some? && Less(ParseId(a).value, ParseId(b).value)
  }

  lemma {:induction false} FormatValue(n: nat)
    ensures Value(Format(n)) == n
  {
    if n < 10 {
      assert Format(n)[..0] == "";
    } else {
      FormatValue(n / 10);
      assert Format(n)[..|Format(n)| - 1] == Format(n / 10);
    }
  }

  /** Parsing inverts printing on every id Redis can hand out. */
  lemma IdRoundTrip(id: StreamId)
    requires id.ms < UINT64 && id.seqno < UINT64
    ensures ParseId(FormatId(id)) == Some(id)
  {
    var a, b := Format(id.ms), Format(id.seqno);
    var s := FormatId(id);
    assert s[|a|] == '-' && s[..|a|] == a && s[|a| + 1..] == b;
    assert forall j :: 0 <= j < |a| ==> s[j] == a[j];
    assert Dash(s) == |a|;
    FormatValue(id.ms);
    FormatValue(id.seqno);
  }

  /** The string comparison is the order of the numbers, for the ids Redis hands out. */
  lemma BeforeIsOrder(a: StreamId, b: StreamId)
    requires a.ms < UINT64 && a.seqno < UINT64 && b.ms < UINT64 && b.seqno < UINT64
    ensures Before(FormatId(a), FormatId(b)) <==> Less(a, b)
  {
    IdRoundTrip(a);
    IdRoundTrip(b);
  }

  /** An id prints and parses back exactly when both its numbers fit in 64 bits. */
  lemma IdRoundTripExactly(id: StreamId)
    ensures ParseId(FormatId(id)) == if id.ms < 18446744073709551616 && id.seqno < 18446744073709551616 then Some(id) else None
  {
    var a, b := Format(id.ms), Format(id.seqno);
    var s := FormatId(id);
    assert s[|a|] == '-' && s[..|a|] == a && s[|a| + 1..] == b;
    assert forall j :: 0 <= j < |a| ==> s[j] == a[j];
    assert Dash(s) == |a|;
    FormatValue(id.ms);
    FormatValue(id.seqno);
  }
}
