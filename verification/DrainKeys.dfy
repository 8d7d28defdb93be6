/**
 Drain keys and entries (drain/store.go), and the hash field that carries a key
 through Redis (drain/redis.go, redisField and parseRedisField).
 */
module DrainKeys {
  import opened Prelude

  /** A drain's identity. rpc "" covers every RPC type of the operator. */
  datatype Key = Key(service: string, operator: string, rpc: string)

  /** Times count from Go's zero time, so ZERO_TIME is before every clock reading. */
  datatype Entry = Entry(key: Key, until: int, reason: string)

  const ZERO_TIME := 0
  const ZERO_ENTRY := Entry(Key("", "", ""), ZERO_TIME, "")

  const ALL_RPC_TYPES := "all"

  function LowerChar(c: char): char {
    if 'A' <= c <= 'Z' then ((c as int) + 32) as char else c
  }

  /** strings.ToLower, on the ASCII letters a registrable domain is spelled with. */
  function Lower(s: string): (r: string)
    ensures |r| == |s|
  {
    seq(|s|, i requires 0 <= i < |s| => LowerChar(s[i]))
  }

  function Normalized(k: Key): Key {
    k.(operator := Lower(k.operator))
  }

  lemma LowerIdempotent(s: string)
    ensures Lower(Lower(s)) == Lower(s)
  {
  }

  // ---------------------------------------------------------------- fields

  function RpcSegment(k: Key): string {
    if k.rpc == "" then ALL_RPC_TYPES else k.rpc
  }

  /** <service>:<operator>:<rpc-or-all>, the operator as given. */
  function Join(k: Key): string {
    k.service + ":" + k.operator + ":" + RpcSegment(k)
  }

  function RedisField(k: Key): string {
    Join(Normalized(k))
  }

  /** strings.Split(s, ":"). */
  function Split(s: string): (parts: seq<string>)
    ensures |parts| >= 1
  {
    if s == "" then [""]
    else
      var rest := Split(s[1..]);
      if s[0] == ':' then [""] + rest else [[s[0]] + rest[0]] + rest[1..]
  }

  function ParseRedisField(field: string): Option<Key> {
    var parts := Split(field);
    if |parts| != 3 || parts[0] == "" || parts[1] == "" || parts[2] == "" then None
    else Some(Key(parts[0], parts[1], if parts[2] == ALL_RPC_TYPES then "" else parts[2]))
  }

  lemma {:induction false} SplitPlain(s: string)
    requires ':' !in s
    ensures Split(s) == [s]
  {
    if s != "" {
      SplitPlain(s[1..]);
      assert [s[0]] + s[1..] == s;
    }
  }

  lemma {:induction false} SplitAtColon(a: string, b: string)
    requires ':' !in a
    ensures Split(a + ":" + b) == [a] + Split(b)
  {
    if a == "" {
      assert a + ":" + b == ":" + b;
      assert (":" + b)[1..] == b;
    } else {
      SplitAtColon(a[1..], b);
      assert (a + ":" + b)[1..] == a[1..] + ":" + b;
      assert [a[0]] + a[1..] == a;
    }
  }

  lemma {:induction false} PartsArePlain(s: string, p: string)
    requires p in Split(s)
    ensures ':' !in p
  {
    if s != "" {
      var rest := Split(s[1..]);
      if p in rest {
        PartsArePlain(s[1..], p);
      } else if s[0] != ':' {
        PartsArePlain(s[1..], rest[0]);
      }
    }
  }

  /** strings.Join(parts, ":"). */
  function Glued(parts: seq<string>): string
    requires parts != []
  {
    if |parts| == 1 then parts[0] else parts[0] + ":" + Glued(parts[1..])
  }

  /** Split loses nothing: the parts joined give the text back. */
  lemma {:induction false} PartsGlued(s: string)
    ensures Glued(Split(s)) == s
  {
    if s != "" {
      PartsGlued(s[1..]);
      var rest := Split(s[1..]);
      if s[0] == ':' {
        assert ([""] + rest)[1..] == rest;
      } else {
        assert ([[s[0]] + rest[0]] + rest[1..])[1..] == rest[1..];
      }
      assert s == [s[0]] + s[1..];
    }
  }

  lemma {:induction false} ThreeGlued(parts: seq<string>)
    requires |parts| == 3
    ensures Glued(parts) == parts[0] + ":" + parts[1] + ":" + parts[2]
  {
    assert parts[1..][1..] == [parts[2]];
    assert Glued(parts[1..]) == parts[1] + ":" + parts[2];
    assert parts[0] + ":" + (parts[1] + ":" + parts[2]) == parts[0] + ":" + parts[1] + ":" + parts[2];
  }

  /** A key whose field names it unambiguously. */
  predicate Spelled(k: Key) {
    && k.service != "" && ':' !in k.service
    && k.operator != "" && ':' !in k.operator && Lower(k.operator) == k.operator
    && ':' !in k.rpc && k.rpc != ALL_RPC_TYPES
  }

  lemma {:induction false} SplitTwice(a: string, b: string, c: string)
    requires ':' !in a && ':' !in b && ':' !in c
    ensures Split(a + ":" + (b + ":" + c)) == [a, b, c]
  {
    SplitAtColon(a, b + ":" + c);
    SplitAtColon(b, c);
    SplitPlain(c);
  }

  lemma JoinSplits(k: Key)
    requires ':' !in k.service && ':' !in k.operator && ':' !in k.rpc
    ensures Split(Join(k)) == [k.service, k.operator, RpcSegment(k)]
  {
    SplitTwice(k.service, k.operator, RpcSegment(k));
    assert Join(k) == k.service + ":" + (k.operator + ":" + RpcSegment(k));
  }

  /** Two joins that agree on service and rpc agree on the operator. */
  lemma JoinOperator(k: Key, operator: string)
    requires |operator| == |k.operator| && Join(k) == Join(k.(operator := operator))
    ensures operator == k.operator
  {
    var n := |k.service| + 1;
    var k' := k.(operator := operator);
    forall i | 0 <= i < |operator|
      ensures operator[i] == k.operator[i]
    {
      assert Join(k)[n + i] == k.operator[i] && Join(k')[n + i] == operator[i];
    }
  }

  /** A field parses back to its key for exactly the spelled keys. */
  lemma FieldRoundTrip(k: Key)
    ensures ParseRedisField(RedisField(k)) == Some(k) <==> Spelled(k)
  {
    if Spelled(k) {
      JoinSplits(k);
    }
    if ParseRedisField(RedisField(k)) == Some(k) {
      ParsedFieldIsJoin(RedisField(k));
      JoinOperator(k, Lower(k.operator));
      var parts := Split(RedisField(k));
      PartsArePlain(RedisField(k), parts[0]);
      PartsArePlain(RedisField(k), parts[1]);
      PartsArePlain(RedisField(k), parts[2]);
    }
  }

  /** A field that parses is the join of the key it parses to, so no two fields parse alike. */
  lemma ParsedFieldIsJoin(field: string)
    ensures ParseRedisField(field).Some? ==> field == Join(ParseRedisField(field).value)
  {
    if |Split(field)| == 3 {
      PartsGlued(field);
      ThreeGlued(Split(field));
    }
  }

  const UPPER := "ABCDEFGHIJKLMNOPQRSTUVWXYZ"
  const LOWER := "abcdefghijklmnopqrstuvwxyz"

  lemma Alphabets(j: nat)
    requires j < 26
    ensures UPPER[j] as int == 'A' as int + j && LOWER[j] as int == 'a' as int + j
  {
  }

  lemma LowerOne(c: char)
    ensures c !in UPPER ==> LowerChar(c) == c
    ensures forall j :: 0 <= j < 26 && c == UPPER[j] ==> LowerChar(c) == LOWER[j]
  {
    if 'A' <= c <= 'Z' {
      var j := c as int - 'A' as int;
      Alphabets(j);
      assert UPPER[j] == c;
    }
    forall j | 0 <= j < 26 && c == UPPER[j]
      ensures LowerChar(c) == LOWER[j]
    {
      Alphabets(j);
    }
  }

  /** Lower-casing: each capital becomes its small letter, and nothing else changes. */
  lemma LowerExactly(s: string, i: nat)
    requires i < |s|
    ensures s[i] !in UPPER ==> Lower(s)[i] == s[i]
    ensures forall j :: 0 <= j < 26 && s[i] == UPPER[j] ==> Lower(s)[i] == LOWER[j]
  {
    LowerOne(s[i]);
  }
}
