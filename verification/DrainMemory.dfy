/**
 The local drain map (drain/memory.go). Every operation acts on each key by
 itself, so what it does is given once, per key, as a function on a Cell; the
 class is proved to do exactly that at every key, and the whole-run theorems
 (DrainProtocol) are about the same functions.
 */
module DrainCells {
  import opened Prelude
  import opened DrainKeys

  /** What the store holds at one key. */
  datatype Cell = Cell(entry: Option<Entry>, setAt: Option<int>, releasedAt: Option<int>)

  const EMPTY_CELL := Cell(None, None, None)

  /** Set: an Until that is not after now is a release. */
  function Installed(e: Entry, now: int): Cell {
    if e.until > now then Cell(Some(e), Some(now), None) else Lifted(now)
  }

  function Lifted(now: int): Cell {
    Cell(None, None, Some(now))
  }

  /** The snapshot's entry, unless the key was released after the snapshot began. */
  function Snapshot(c: Cell, next: Option<Entry>, since: int): Option<Entry> {
    if c.releasedAt.Some? && c.releasedAt.value > since then None else next
  }

  /** replaceAll: a still-live entry newer than the snapshot fills a hole in it. */
  function Replaced(c: Cell, next: Option<Entry>, since: int, now: int): Cell {
    var entry := Filled(c, Snapshot(c, next, since), since, now);
    Cell(entry, if entry.Some? then c.setAt else None, None)
  }

  function Filled(c: Cell, snap: Option<Entry>, since: int, now: int): Option<Entry> {
    var carried := c.setAt.Some? && c.setAt.value > since && c.entry.Some? && c.entry.value.until > now;
    if snap.None? && carried then c.entry else snap
  }

  /** A local timestamp belongs to the decision it dates. */
  predicate CellValid(c: Cell) {
    && (c.setAt.Some? ==> c.entry.Some?)
    && (c.releasedAt.Some? ==> c.entry.None?)
  }

  /** Every operation keeps the timestamps consistent, whatever snapshot is laid down. */
  lemma CellsStayValid(c: Cell, e: Entry, next: Option<Entry>, since: int, now: int)
    requires CellValid(c)
    ensures CellValid(Installed(e, now)) && CellValid(Lifted(now)) && CellValid(Replaced(c, next, since, now))
  {
  }
}

module DrainOrder {
  import opened DrainKeys

  /** cmp.Compare on strings, as "not after". */
  predicate LexLeq(a: string, b: string) {
    a == "" || (b != "" && (a[0] < b[0] || (a[0] == b[0] && LexLeq(a[1..], b[1..]))))
  }

  lemma {:induction false} LexTotal(a: string, b: string)
    ensures LexLeq(a, b) || LexLeq(b, a)
    ensures LexLeq(a, b) && LexLeq(b, a) ==> a == b
  {
    if a != "" && b != "" && a[0] == b[0] {
      LexTotal(a[1..], b[1..]);
      assert a == [a[0]] + a[1..] && b == [b[0]] + b[1..];
    }
  }

  lemma {:induction false} LexTransitive(a: string, b: string, c: string)
    requires LexLeq(a, b) && LexLeq(b, c)
    ensures LexLeq(a, c)
  {
    if a != "" && a[0] == b[0] && b[0] == c[0] {
      LexTransitive(a[1..], b[1..], c[1..]);
    }
  }

  /** cmpEntry(a, b) <= 0: by operator, then by RPC type. */
  predicate EntryLeq(a: Entry, b: Entry) {
    if a.key.operator == b.key.operator then LexLeq(a.key.rpc, b.key.rpc)
    else LexLeq(a.key.operator, b.key.operator)
  }

  lemma EntryTotal(a: Entry, b: Entry)
    ensures EntryLeq(a, b) || EntryLeq(b, a)
  {
    LexTotal(a.key.operator, b.key.operator);
    LexTotal(a.key.rpc, b.key.rpc);
  }

  lemma EntryTransitive(a: Entry, b: Entry, c: Entry)
    requires EntryLeq(a, b) && EntryLeq(b, c)
    ensures EntryLeq(a, c)
  {
    var x, y, z := a.key, b.key, c.key;
    if x.operator == y.operator == z.operator {
      LexTransitive(x.rpc, y.rpc, z.rpc);
    } else if x.operator != y.operator && y.operator != z.operator {
      LexTransitive(x.operator, y.operator, z.operator);
      LexTotal(x.operator, y.operator);
    }
  }

  predicate Sorted(s: seq<Entry>) {
    forall i, j :: 0 <= i < j < |s| ==> EntryLeq(s[i], s[j])
  }

  /** One step of slices.SortFunc: e goes before the first entry it does not follow. */
  function Insert(s: seq<Entry>, e: Entry): (r: seq<Entry>)
    requires Sorted(s)
    ensures Sorted(r) && multiset(r) == multiset(s) + multiset{e}
  {
    if s == [] then [e]
    else if EntryLeq(e, s[0]) then
      InsertFront(s, e);
      [e] + s
    else
      var rest := Insert(s[1..], e);
      InsertDeeper(s, e, rest);
      [s[0]] + rest
  }

  lemma InsertFront(s: seq<Entry>, e: Entry)
    requires s != [] && Sorted(s) && EntryLeq(e, s[0])
    ensures Sorted([e] + s)
  {
    forall j | 0 < j < |s|
      ensures EntryLeq(e, s[j])
    {
      EntryTransitive(e, s[0], s[j]);
    }
  }

  lemma InsertDeeper(s: seq<Entry>, e: Entry, rest: seq<Entry>)
    requires s != [] && Sorted(s) && !EntryLeq(e, s[0])
    requires Sorted(rest) && multiset(rest) == multiset(s[1..]) + multiset{e}
    ensures Sorted([s[0]] + rest) && multiset([s[0]] + rest) == multiset(s) + multiset{e}
  {
    EntryTotal(s[0], e);
    assert s == [s[0]] + s[1..];
    forall j | 0 <= j < |rest|
      ensures EntryLeq(s[0], rest[j])
    {
      assert rest[j] in multiset(rest);
      if rest[j] != e {
        assert rest[j] in s[1..];
      }
    }
  }
}

module DrainMemory {
  import opened Prelude
  import opened DrainKeys
  import opened DrainCells
  import opened DrainOrder

  /** A live drain covers the triple: scoped to this RPC type, or unscoped. */
  ghost predicate Covered(entries: map<Key, Entry>, service: string, operator: string, rpc: string, now: int) {
    exists k :: k in entries && entries[k].until > now && k.service == service && k.operator == operator
                && (k.rpc == rpc || k.rpc == "")
  }

  predicate Live(entries: map<Key, Entry>, e: Entry, service: string, now: int) {
    e.key in entries && entries[e.key] == e && e.key.service == service && e.until > now
  }

  /** out holds each live drain of the service once and nothing else. */
  ghost predicate Lists(out: seq<Entry>, entries: map<Key, Entry>, service: string, now: int) {
    forall e :: multiset(out)[e] == if Live(entries, e, service, now) then 1 else 0
  }

  class MemoryStore {
    var entries: map<Key, Entry>
    var setAt: map<Key, int>
    var releasedAt: map<Key, int>

    ghost predicate Valid()
      reads this
    {
      && (forall k :: k in entries ==> entries[k].key == k)
      && setAt.Keys <= entries.Keys
      && releasedAt.Keys !! entries.Keys
    }

    function CellAt(k: Key): Cell
      reads this
    {
      Cell(Lookup(entries, k), Lookup(setAt, k), Lookup(releasedAt, k))
    }

    constructor ()
      ensures Valid() && forall k :: CellAt(k) == EMPTY_CELL
    {
      entries, setAt, releasedAt := map[], map[], map[];
    }

    method Set(e: Entry, now: int)
      requires Valid()
      modifies this
      ensures Valid()
      ensures CellAt(Normalized(e.key)) == Installed(e.(key := Normalized(e.key)), now)
      ensures forall k :: k != Normalized(e.key) ==> CellAt(k) == old(CellAt(k))
    {
      var k := Normalized(e.key);
      if e.until <= now {
        entries, setAt, releasedAt := entries - {k}, setAt - {k}, releasedAt[k := now];
        return;
      }
      entries, setAt, releasedAt := entries[k := e.(key := k)], setAt[k := now], releasedAt - {k};
    }

    method Release(key: Key, now: int)
      requires Valid()
      modifies this
      ensures Valid()
      ensures CellAt(Normalized(key)) == Lifted(now)
      ensures forall k :: k != Normalized(key) ==> CellAt(k) == old(CellAt(k))
    {
      var k := Normalized(key);
      entries, setAt, releasedAt := entries - {k}, setAt - {k}, releasedAt[k := now];
    }

    /** Two lookups answer the coverage question. */
    method Drained(service: string, operator: string, rpc: string, now: int) returns (drained: bool)
      ensures drained <==> Covered(entries, service, operator, rpc, now)
    {
      var scoped, unscoped := Key(service, operator, rpc), Key(service, operator, "");
      if scoped in entries && entries[scoped].until > now {
        return true;
      }
      drained := unscoped in entries && entries[unscoped].until > now;
    }

    /** The live drains of a service, each once, in cmpEntry order. */
    method Active(service: string, now: int) returns (out: seq<Entry>)
      requires Valid()
      ensures Sorted(out) && Lists(out, entries, service, now)
    {
      out := [];
      var todo := entries.Keys;
      while todo != {}
        invariant todo <= entries.Keys && Sorted(out)
        invariant forall e :: multiset(out)[e] == if Live(entries, e, service, now) && e.key !in todo then 1 else 0
        decreases |todo|
      {
        var k :| k in todo;
        todo := todo - {k};
        if k.service == service && entries[k].until > now {
          out := Insert(out, entries[k]);
        }
      }
    }

    /** The whole map is swapped for the snapshot: key by key, the cell function Replaced. */
    method ReplaceAll(snapshot: map<Key, Entry>, since: int, now: int)
      requires Valid()
      requires forall k :: k in snapshot ==> snapshot[k].key == k
      modifies this
      ensures Valid()
      ensures forall k :: CellAt(k) == Replaced(old(CellAt(k)), Lookup(snapshot, k), since, now)
    {
      var cut := DropReleased(snapshot, since);
      var next := CarryNewer(cut, since, now);
      var kept := KeepInstalled(next);
      forall k
        ensures Cell(Lookup(next, k), Lookup(kept, k), None) == Replaced(CellAt(k), Lookup(snapshot, k), since, now)
        ensures k in next ==> next[k].key == k
        ensures k in kept ==> k in next
      {
        assert Lookup(cut, k) == Snapshot(CellAt(k), Lookup(snapshot, k), since);
        assert Lookup(next, k) == Filled(CellAt(k), Lookup(cut, k), since, now);
        assert Lookup(kept, k) == if k in next then Lookup(setAt, k) else None;
      }
      entries, setAt, releasedAt := next, kept, map[];
    }

    /** First pass: a key released after the snapshot began leaves it. */
    method DropReleased(snapshot: map<Key, Entry>, since: int) returns (next: map<Key, Entry>)
      ensures forall k :: Lookup(next, k) == Snapshot(CellAt(k), Lookup(snapshot, k), since)
    {
      next := snapshot;
      var todo := releasedAt.Keys;
      while todo != {}
        invariant todo <= releasedAt.Keys
        invariant forall k :: Lookup(next, k) == if k in todo then Lookup(snapshot, k) else Snapshot(CellAt(k), Lookup(snapshot, k), since)
        decreases |todo|
      {
        var k :| k in todo;
        todo := todo - {k};
        if releasedAt[k] > since {
          next := next - {k};
        }
      }
    }

    /** Second pass: a live entry installed after the snapshot began fills its hole. */
    method CarryNewer(cut: map<Key, Entry>, since: int, now: int) returns (next: map<Key, Entry>)
      ensures forall k :: Lookup(next, k) == Filled(CellAt(k), Lookup(cut, k), since, now)
    {
      next := cut;
      var todo := setAt.Keys;
      while todo != {}
        invariant todo <= setAt.Keys
        invariant forall k :: Lookup(next, k) == if k in todo then Lookup(cut, k) else Filled(CellAt(k), Lookup(cut, k), since, now)
        decreases |todo|
      {
        var k :| k in todo;
        todo := todo - {k};
        if setAt[k] > since && k in entries && entries[k].until > now && k !in next {
          next := next[k := entries[k]];
        }
      }
    }

    /** Third pass: install times survive for the keys that do. */
    method KeepInstalled(next: map<Key, Entry>) returns (kept: map<Key, int>)
      ensures forall k :: Lookup(kept, k) == if k in next then Lookup(setAt, k) else None
    {
      kept := setAt;
      var todo := setAt.Keys;
      while todo != {}
        invariant todo <= setAt.Keys
        invariant forall k :: Lookup(kept, k) == if k in next || k in todo then Lookup(setAt, k) else None
        decreases |todo|
      {
        var k :| k in todo;
        todo := todo - {k};
        if k !in next {
          kept := kept - {k};
        }
      }
    }
  }

  /** The hot path and the listing agree: a triple is drained exactly when the listing holds a drain covering it. */
  lemma DrainedIffListed(entries: map<Key, Entry>, out: seq<Entry>, service: string, operator: string, rpc: string,
        now: int)
    requires forall k :: k in entries ==> entries[k].key == k
    requires Lists(out, entries, service, now)
    ensures Covered(entries, service, operator, rpc, now) <==>
            exists e :: e in out && e.key.operator == operator && (e.key.rpc == rpc || e.key.rpc == "")
  {
    assert forall e :: e in out <==> e in multiset(out);
    if Covered(entries, service, operator, rpc, now) {
      var k :| k in entries && entries[k].until > now && k.service == service && k.operator == operator
               && (k.rpc == rpc || k.rpc == "");
      assert entries[k] in out;
    }
  }

  /** The listing has every drain of the service that has time left, once, and no other. */
  lemma ListingExactly(out: seq<Entry>, entries: map<Key, Entry>, service: string, now: int)
    requires Lists(out, entries, service, now) && forall k :: k in entries ==> entries[k].key == k
    ensures forall k :: k in entries && k.service == service && now < entries[k].until ==> entries[k] in out
    ensures forall e :: e in out ==> e.key in entries && entries[e.key] == e && e.key.service == service && now < e.until
    ensures forall i, j :: 0 <= i < j < |out| ==> out[i].key != out[j].key
  {
    forall k | k in entries && k.service == service && now < entries[k].until
      ensures entries[k] in out
    {
      assert multiset(out)[entries[k]] == 1;
    }
    forall e | e in out
      ensures e.key in entries && entries[e.key] == e && e.key.service == service && now < e.until
    {
      assert multiset(out)[e] > 0;
    }
    forall i, j | 0 <= i < j < |out|
      ensures out[i].key != out[j].key
    {
      if out[i].key == out[j].key {
        assert out[i] in out && out[j] in out;
        TwiceIn(out, i, j);
      }
    }
  }

  lemma TwiceIn(out: seq<Entry>, i: nat, j: nat)
    requires i < j < |out| && out[i] == out[j]
    ensures multiset(out)[out[i]] >= 2
  {
    assert out == out[..i] + [out[i]] + out[i + 1..j] + [out[j]] + out[j + 1..];
  }
}
