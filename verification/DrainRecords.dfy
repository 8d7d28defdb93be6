/**
 What one instance remembers about drains that Redis does not yet agree on
 (drain/redis.go, keyState and the begin/finish pair around every write). As
 with the local map, each operation is given per key and the class is proved to
 do that at its key and nothing elsewhere.
 */
module DrainRecords {
  import opened Prelude
  import opened DrainKeys

  datatype Record = Record(entry: Entry, pending: bool, inflight: int, gen: nat, released: bool)

  const BLANK := Record(ZERO_ENTRY, false, 0, 0, false)

  /** How a write attempt ended; only Propagation is worth retrying. */
  datatype WriteError = NoError | Propagation | Encoding

  datatype Retry = Retry(entry: Entry, gen: nat)

  /** What finishWrite leaves: the record, the entry the local map should hold, and whether to undo the write. */
  datatype Verdict = Verdict(record: Option<Record>, live: Option<Entry>, compensate: bool)

  /** The tracking record, created blank when there is none. */
  function StateOf(r: Option<Record>): Record {
    if r.Some? then r.value else BLANK
  }

  /** A record with nothing left to remember is dropped. */
  function Forget(r: Record): Option<Record> {
    if !r.pending && r.inflight == 0 then None else Some(r)
  }

  function BeginSet(r: Option<Record>, e: Entry): Record {
    var st := StateOf(r);
    st.(gen := st.gen + 1, released := false, entry := e, inflight := st.inflight + 1)
  }

  function BeginRelease(r: Option<Record>): Option<Record> {
    var st := StateOf(r);
    Forget(st.(gen := st.gen + 1, released := true, pending := false, entry := ZERO_ENTRY))
  }

  function FinishWrite(r: Option<Record>, e: Entry, gen: nat, err: WriteError): Verdict {
    var st := StateOf(r).(inflight := StateOf(r).inflight - 1);
    if st.gen != gen && st.released then Verdict(Forget(st), None, true)
    else if st.gen != gen then Verdict(Forget(st.(pending := true)), Some(st.entry), false)
    else if err == Propagation then Verdict(Forget(st.(pending := true, entry := e)), Some(e), false)
    else Verdict(Forget(st.(pending := false)), Some(e), false)
  }

  /** The record after takePending, and the retry it hands out. */
  function TakePending(r: Option<Record>, now: int): (Option<Record>, Option<Retry>) {
    if r.None? || !r.value.pending then (r, None)
    else if r.value.entry.until <= now then (Forget(r.value.(pending := false, entry := ZERO_ENTRY)), None)
    else (Some(r.value.(inflight := r.value.inflight + 1)), Some(Retry(r.value.entry, r.value.gen)))
  }
}

module DrainRedis {
  import opened Prelude
  import opened DrainKeys
  import opened DrainRecords

  /** A hash value: the JSON payload, or bytes that do not decode. */
  datatype Raw = Malformed | Payload(until: int, reason: string)

  class RedisStore {
    var keys: map<Key, Record>

    constructor ()
      ensures keys == map[]
    {
      keys := map[];
    }

    method Put(k: Key, r: Option<Record>)
      modifies this
      ensures Lookup(keys, k) == r
      ensures forall j :: j != k ==> Lookup(keys, j) == old(Lookup(keys, j))
    {
      keys := if r.Some? then keys[k := r.value] else keys - {k};
    }

    method BeginSetKey(e: Entry) returns (gen: nat)
      modifies this
      ensures Lookup(keys, e.key) == Some(BeginSet(old(Lookup(keys, e.key)), e))
      ensures gen == BeginSet(old(Lookup(keys, e.key)), e).gen
      ensures forall j :: j != e.key ==> Lookup(keys, j) == old(Lookup(keys, j))
    {
      var st := StateOf(Lookup(keys, e.key));
      st := st.(gen := st.gen + 1);
      st := st.(released := false, entry := e, inflight := st.inflight + 1);
      Put(e.key, Some(st));
      gen := st.gen;
    }

    method BeginReleaseKey(k: Key)
      modifies this
      ensures Lookup(keys, k) == BeginRelease(old(Lookup(keys, k)))
      ensures forall j :: j != k ==> Lookup(keys, j) == old(Lookup(keys, j))
    {
      var st := StateOf(Lookup(keys, k));
      st := st.(gen := st.gen + 1, released := true, pending := false, entry := ZERO_ENTRY);
      Put(k, Forget(st));
    }

    method FinishWriteKey(e: Entry, gen: nat, err: WriteError) returns (live: Option<Entry>, compensate: bool)
      modifies this
      ensures var v := FinishWrite(old(Lookup(keys, e.key)), e, gen, err);
              Lookup(keys, e.key) == v.record && live == v.live && compensate == v.compensate
      ensures forall j :: j != e.key ==> Lookup(keys, j) == old(Lookup(keys, j))
    {
      var st := StateOf(Lookup(keys, e.key));
      st := st.(inflight := st.inflight - 1);
      live, compensate := None, false;
      if st.gen != gen && st.released {
        compensate := true;
      } else if st.gen != gen {
        st := st.(pending := true);
        live := Some(st.entry);
      } else {
        if err != NoError {
          st := st.(pending := err == Propagation);
          if st.pending {
            st := st.(entry := e);
          }
        } else {
          st := st.(pending := false);
        }
        live := Some(e);
      }
      Put(e.key, Forget(st));
    }

    /** Every record is taken as TakePending says, and each retry handed out once. */
    method TakePendingAll(now: int) returns (out: map<Key, Retry>)
      modifies this
      ensures forall k :: Lookup(keys, k) == TakePending(old(Lookup(keys, k)), now).0
      ensures forall k :: (if k in out then Some(out[k]) else None) == TakePending(old(Lookup(keys, k)), now).1
    {
      out := map[];
      var todo := keys.Keys;
      while todo != {}
        invariant todo <= old(keys).Keys
        invariant forall k :: Lookup(keys, k) ==
                              if k in todo then old(Lookup(keys, k)) else TakePending(old(Lookup(keys, k)), now).0
        invariant forall k :: (if k in out then Some(out[k]) else None) ==
                              if k in todo then None else TakePending(old(Lookup(keys, k)), now).1
        decreases |todo|
      {
        var k :| k in todo;
        todo := todo - {k};
        assert Lookup(keys, k) == old(Lookup(keys, k));
        var st := keys[k];
        if st.pending {
          if st.entry.until <= now {
            Put(k, Forget(st.(pending := false, entry := ZERO_ENTRY)));
          } else {
            Put(k, Some(st.(inflight := st.inflight + 1)));
            out := out[k := Retry(st.entry, st.gen)];
          }
        }
      }
    }
  }

  /**
   The scan over HGETALL: next holds exactly the kept values, each under the one
   field that spells its key, and expired exactly the well-formed fields whose
   time is up. Neither depends on the order the fields come in.
   */
  method ScanHash(all: map<string, Raw>, now: int, follow: string)
    returns (next: map<Key, Entry>, expired: set<string>)
    ensures forall k :: k in next <==>
                        && Join(k) in all && ParseRedisField(Join(k)) == Some(k)
                        && all[Join(k)].Payload? && all[Join(k)].until > now && follow <= all[Join(k)].reason
    ensures forall k :: k in next ==> all[Join(k)].Payload? && next[k] == Entry(k, all[Join(k)].until, all[Join(k)].reason)
    ensures forall f :: f in expired <==>
                        f in all && ParseRedisField(f).Some? && all[f].Payload? && all[f].until <= now
  {
    next, expired := map[], {};
    var todo := all.Keys;
    while todo != {}
      invariant todo <= all.Keys
      invariant forall k :: k in next <==> Join(k) in all && Join(k) !in todo
                                           && ParseRedisField(Join(k)) == Some(k)
                                           && all[Join(k)].Payload? && all[Join(k)].until > now && follow <= all[Join(k)].reason
      invariant forall k :: k in next ==> next[k] == Entry(k, all[Join(k)].until, all[Join(k)].reason)
      invariant forall f :: f in expired <==> f in all && f !in todo
                                              && ParseRedisField(f).Some? && all[f].Payload? && all[f].until <= now
      decreases |todo|
    {
      var field :| field in todo;
      todo := todo - {field};
      var key, raw := ParseRedisField(field), all[field];
      ParsedFieldIsJoin(field);
      if key.Some? && raw.Payload? {
        if raw.until <= now {
          expired := expired + {field};
        } else if follow == "" || follow <= raw.reason {
          next := next[key.value := Entry(key.value, raw.until, raw.reason)];
        }
      }
    }
  }
}
