/**
 * A cache with a lifetime and an entry cap (packages/core/src/bounded-ttl-cache.ts), and what its
 * answers mean in terms of the writes that were made.
 */
module BoundedTtlCache {
  import opened Options
  import opened Seqs

  /** One entry of the insertion-ordered map. */
  datatype Slot<V> = Slot(key: string, expiresAt: int, value: V)

  // ---------------------------------------------------------------- what the two operations do

  function Live<V(!new)>(slots: seq<Slot<V>>, now: int): seq<Slot<V>> {
    Filter(slots, (s: Slot<V>) => s.expiresAt > now)
  }

  function Except<V(!new)>(slots: seq<Slot<V>>, key: string): seq<Slot<V>> {
    Filter(slots, (s: Slot<V>) => s.key != key)
  }

  function Find<V>(slots: seq<Slot<V>>, key: string): (i: nat)
    ensures i <= |slots|
    ensures i < |slots| ==> slots[i].key == key
    ensures forall j :: 0 <= j < i ==> slots[j].key != key
  {
    First(slots, (s: Slot<V>) => s.key == key)
  }

  function Lookup<V>(slots: seq<Slot<V>>, key: string, now: int): Option<V> {
    var i := Find(slots, key);
    if i < |slots| && slots[i].expiresAt > now then Some(slots[i].value) else None
  }

  /** A lookup forgets the entry it finds expired. */
  function AfterGet<V(!new)>(slots: seq<Slot<V>>, key: string, now: int): seq<Slot<V>> {
    var i := Find(slots, key);
    if i < |slots| && slots[i].expiresAt <= now then RemoveAt(slots, i) else slots
  }

  /** A write purges what expired, moves its key to the end and evicts from the front. */
  function AfterSet<V(!new)>(slots: seq<Slot<V>>, slot: Slot<V>, now: int, capacity: nat): seq<Slot<V>> {
    LastN(Except(Live(slots, now), slot.key) + [slot], capacity)
  }

  // ---------------------------------------------------------------- the cache itself

  class Cache<V(!new)> {
    const ttlMs: int
    const maxEntries: int
    var slots: seq<Slot<V>>

    constructor (ttlMs: int, maxEntries: int)
      ensures this.ttlMs == ttlMs && this.maxEntries == maxEntries && slots == []
    {
      this.ttlMs, this.maxEntries := ttlMs, maxEntries;
      slots := [];
    }

    method Get(key: string, now: int) returns (value: Option<V>)
      modifies this
      ensures value == Lookup(old(slots), key, now)
      ensures slots == AfterGet(old(slots), key, now)
    {
      var i := Find(slots, key);
      if i == |slots| { return None; }
      var entry := slots[i];
      if entry.expiresAt <= now {
        slots := RemoveAt(slots, i);
        return None;
      }
      return Some(entry.value);
    }

    method Set(key: string, value: V, now: int)
      modifies this
      ensures slots == AfterSet(old(slots), Slot(key, now + ttlMs, value), now, if maxEntries < 0 then 0 else maxEntries)
      ensures |slots| <= if maxEntries < 0 then 0 else maxEntries
    {
      Purge(now);
      slots := Except(slots, key);
      slots := slots + [Slot(key, now + ttlMs, value)];
      ghost var full := slots;
      ghost var evicted := 0;
      while |slots| > maxEntries
        invariant evicted <= |full| && slots == full[evicted..] && (evicted == 0 || |slots| >= maxEntries)
      {
        if |slots| == 0 { break; }
        slots := slots[1..];
        evicted := evicted + 1;
      }
    }

    /** The purge loop: entries are deleted while the map is walked. */
    method Purge(now: int)
      modifies this
      ensures slots == Live(old(slots), now)
    {
      var i := 0;
      ghost var seen := 0;
      ghost var before := slots;
      while i < |slots|
        invariant seen <= |before| && i <= |slots|
        invariant slots[..i] == Live(before[..seen], now) && slots[i..] == before[seen..]
        decreases |before| - seen
      {
        PrefixStep(before, seen);
        assert slots[i] == slots[i..][0] && slots[i + 1..] == slots[i..][1..];
        if slots[i].expiresAt <= now {
          assert slots[..i] + slots[i + 1..] == RemoveAt(slots, i);
          slots := RemoveAt(slots, i);
        } else {
          assert slots[..i + 1] == slots[..i] + [slots[i]];
          i := i + 1;
        }
        seen := seen + 1;
      }
      assert slots == slots[..i] && before == before[..seen];
    }
  }

  // ---------------------------------------------------------------- runs and their history

  datatype Call<V> = GetCall(key: string, now: int) | SetCall(key: string, value: V, now: int)

  function Next<V(!new)>(slots: seq<Slot<V>>, call: Call<V>, ttl: int, capacity: nat): seq<Slot<V>> {
    match call
    case GetCall(key, now) => AfterGet(slots, key, now)
    case SetCall(key, value, now) => AfterSet(slots, Slot(key, now + ttl, value), now, capacity)
  }

  function Wrote<V>(writes: seq<Slot<V>>, call: Call<V>, ttl: int): seq<Slot<V>> {
    match call
    case GetCall(_, _) => writes
    case SetCall(key, value, now) => writes + [Slot(key, now + ttl, value)]
  }

  /** The slots after a run of calls on a new cache. */
  function Run<V(!new)>(calls: seq<Call<V>>, ttl: int, capacity: nat): seq<Slot<V>> {
    if calls == [] then [] else Next(Run(calls[..|calls| - 1], ttl, capacity), calls[|calls| - 1], ttl, capacity)
  }

  /** Every write of the run, in order. */
  function Writes<V>(calls: seq<Call<V>>, ttl: int): seq<Slot<V>> {
    if calls == [] then [] else Wrote(Writes(calls[..|calls| - 1], ttl), calls[|calls| - 1], ttl)
  }

  predicate Steady<V>(calls: seq<Call<V>>) {
    forall i, j :: 0 <= i < j < |calls| ==> calls[i].now <= calls[j].now
  }

  ghost function Keys<V>(writes: seq<Slot<V>>): set<string> {
    set i | 0 <= i < |writes| :: writes[i].key
  }

  /**
   * What the history says: the last write of the key answers, unless it expired or at least
   * `capacity` distinct other keys were written after it.
   */
  ghost function Answer<V>(writes: seq<Slot<V>>, key: string, now: int, capacity: nat): Option<V> {
    var i := Last(writes, (w: Slot<V>) => w.key == key);
    if i < |writes| && writes[i].expiresAt > now && |Keys(writes[i + 1..])| < capacity
    then Some(writes[i].value) else None
  }

  // ---------------------------------------------------------------- the keys by last write

  /** The last write of every key, in the order of those writes. */
  function Recency<V(!new)>(writes: seq<Slot<V>>): seq<Slot<V>> {
    if writes == [] then []
    else
      var n := |writes| - 1;
      Except(Recency(writes[..n]), writes[n].key) + [writes[n]]
  }

  predicate DistinctKeys<V>(slots: seq<Slot<V>>) {
    forall i, j :: 0 <= i < j < |slots| ==> slots[i].key != slots[j].key
  }

  predicate Ordered<V>(slots: seq<Slot<V>>) {
    forall i, j :: 0 <= i < j < |slots| ==> slots[i].expiresAt <= slots[j].expiresAt
  }

  lemma FilterMore<V(!new)>(slots: seq<Slot<V>>, x: Slot<V>, p: Slot<V> -> bool)
    ensures Filter(slots + [x], p) == if p(x) then Filter(slots, p) + [x] else Filter(slots, p)
  {
    assert (slots + [x])[..|slots|] == slots;
  }

  /** Filtering keeps distinct keys and the order of expiry. */
  lemma {:induction false} FilterOrders<V(!new)>(slots: seq<Slot<V>>, p: Slot<V> -> bool)
    ensures DistinctKeys(slots) ==> DistinctKeys(Filter(slots, p))
    ensures Ordered(slots) ==> Ordered(Filter(slots, p))
  {
    hide Filter;
    if slots == [] {
      assert |Filter(slots, p)| == 0;
    } else {
      var n := |slots| - 1;
      FilterOrders(slots[..n], p);
      FilterOrdersMore(slots[..n], slots[n], p);
      assert slots == slots[..n] + [slots[n]];
    }
  }

  lemma FilterOrdersMore<V(!new)>(slots: seq<Slot<V>>, x: Slot<V>, p: Slot<V> -> bool)
    requires DistinctKeys(slots) ==> DistinctKeys(Filter(slots, p))
    requires Ordered(slots) ==> Ordered(Filter(slots, p))
    ensures DistinctKeys(slots + [x]) ==> DistinctKeys(Filter(slots + [x], p))
    ensures Ordered(slots + [x]) ==> Ordered(Filter(slots + [x], p))
  {
    hide Filter;
    var r := Filter(slots, p);
    var all := slots + [x];
    FilterMore(slots, x, p);
    assert forall i :: 0 <= i < |slots| ==> all[i] == slots[i];
    assert all[|slots|] == x;
    forall i | 0 <= i < |r|
      ensures DistinctKeys(all) ==> r[i].key != x.key
      ensures Ordered(all) ==> r[i].expiresAt <= x.expiresAt
    {
      assert r[i] in r;
      var j :| 0 <= j < |slots| && slots[j] == r[i];
    }
    assert DistinctKeys(all) ==> DistinctKeys(slots);
    assert Ordered(all) ==> Ordered(slots);
  }

  /** A list in order, all of its elements drawn from `writes`. */
  ghost predicate Drawn<V(!new)>(slots: seq<Slot<V>>, writes: seq<Slot<V>>) {
    && DistinctKeys(slots)
    && (Ordered(writes) ==> Ordered(slots))
    && forall i :: 0 <= i < |slots| ==> slots[i] in writes
  }

  lemma DrawnMore<V(!new)>(slots: seq<Slot<V>>, writes: seq<Slot<V>>, x: Slot<V>)
    requires Drawn(slots, writes) && forall i :: 0 <= i < |slots| ==> slots[i].key != x.key
    ensures Drawn(slots + [x], writes + [x])
  {
    if Ordered(writes + [x]) {
      assert forall i :: 0 <= i < |writes| ==> (writes + [x])[i] == writes[i];
      assert (writes + [x])[|writes|] == x;
      assert forall w :: w in writes ==> w.expiresAt <= x.expiresAt;
    }
  }

  lemma DrawnExcept<V(!new)>(slots: seq<Slot<V>>, writes: seq<Slot<V>>, key: string)
    requires Drawn(slots, writes)
    ensures Drawn(Except(slots, key), writes)
    ensures forall i :: 0 <= i < |Except(slots, key)| ==> Except(slots, key)[i].key != key
  {
    var r := Except(slots, key);
    FilterOrders(slots, (s: Slot<V>) => s.key != key);
    forall i | 0 <= i < |r| ensures r[i] in writes && r[i].key != key {
      assert r[i] in r;
      assert r[i] in slots;
    }
  }

  lemma {:induction false} RecencyOrders<V(!new)>(writes: seq<Slot<V>>)
    ensures Drawn(Recency(writes), writes)
  {
    if writes != [] {
      var n := |writes| - 1;
      RecencyOrders(writes[..n]);
      DrawnExcept(Recency(writes[..n]), writes[..n], writes[n].key);
      DrawnMore(Except(Recency(writes[..n]), writes[n].key), writes[..n], writes[n]);
      assert writes == writes[..n] + [writes[n]];
    }
  }

  lemma {:induction false} RecencyKeys<V(!new)>(writes: seq<Slot<V>>)
    ensures Keys(Recency(writes)) == Keys(writes)
  {
    if writes != [] {
      var n := |writes| - 1;
      var before := Recency(writes[..n]);
      RecencyKeys(writes[..n]);
      ExceptKeys(before, writes[n].key);
      KeysOfConcat(Except(before, writes[n].key), [writes[n]]);
      KeysOfConcat(writes[..n], [writes[n]]);
      assert writes == writes[..n] + [writes[n]];
    }
  }

  lemma KeysOfConcat<V>(a: seq<Slot<V>>, b: seq<Slot<V>>)
    ensures Keys(a + b) == Keys(a) + Keys(b)
  {
    forall k | k in Keys(a) + Keys(b) ensures k in Keys(a + b) {
      if k in Keys(a) {
        var i :| 0 <= i < |a| && a[i].key == k;
        assert (a + b)[i].key == k;
      } else {
        var i :| 0 <= i < |b| && b[i].key == k;
        assert (a + b)[|a| + i].key == k;
      }
    }
  }

  lemma ExceptKeys<V(!new)>(slots: seq<Slot<V>>, key: string)
    ensures Keys(Except(slots, key)) == Keys(slots) - {key}
  {
    var r := Except(slots, key);
    forall i | 0 <= i < |r| ensures r[i].key in Keys(slots) - {key} {
      assert r[i] in r;
    }
    forall i | 0 <= i < |slots| && slots[i].key != key ensures slots[i].key in Keys(r) {
      assert slots[i] in r;
    }
  }

  lemma {:induction false} KeysCounted<V>(slots: seq<Slot<V>>)
    requires DistinctKeys(slots)
    ensures |Keys(slots)| == |slots|
  {
    if slots != [] {
      var n := |slots| - 1;
      KeysCounted(slots[..n]);
      assert slots == slots[..n] + [slots[n]];
      assert Keys(slots) == Keys(slots[..n]) + {slots[n].key};
      assert slots[n].key !in Keys(slots[..n]);
    }
  }

  function Unwritten<V(!new)>(slots: seq<Slot<V>>, keys: set<string>): seq<Slot<V>> {
    Filter(slots, (s: Slot<V>) => s.key !in keys)
  }

  lemma ExceptConcat<V(!new)>(a: seq<Slot<V>>, b: seq<Slot<V>>, key: string)
    ensures Except(a + b, key) == Except(a, key) + Except(b, key)
  {
    FilterConcat(a, b, (s: Slot<V>) => s.key != key);
  }

  lemma {:induction false} UnwrittenMore<V(!new)>(slots: seq<Slot<V>>, keys: set<string>, key: string)
    ensures Except(Unwritten(slots, keys), key) == Unwritten(slots, keys + {key})
  {
    if slots != [] {
      var n := |slots| - 1;
      var before := Unwritten(slots[..n], keys);
      UnwrittenMore(slots[..n], keys, key);
      if slots[n].key in keys {
        assert Unwritten(slots, keys) == before + [] == before;
      } else {
        assert Unwritten(slots, keys) == before + [slots[n]];
        ExceptConcat(before, [slots[n]], key);
        OneExcept(slots[n], key);
      }
    }
  }

  lemma OneExcept<V(!new)>(slot: Slot<V>, key: string)
    ensures Except([slot], key) == if slot.key == key then [] else [slot]
  {
    assert [slot][..0] == [];
  }

  /** The recency list of two runs of writes, one after the other. */
  lemma {:induction false} RecencyConcat<V(!new)>(a: seq<Slot<V>>, b: seq<Slot<V>>)
    ensures Recency(a + b) == Unwritten(Recency(a), Keys(b)) + Recency(b)
  {
    hide Recency, Unwritten;
    if b == [] {
      assert a + b == a && Keys(b) == {};
      NoneWritten(Recency(a), Keys(b));
      NoRecency(b);
    } else {
      var n := |b| - 1;
      RecencyConcat(a, b[..n]);
      RecencyConcatOne(a, b[..n], b[n]);
      assert b == b[..n] + [b[n]];
    }
  }

  lemma NoRecency<V(!new)>(writes: seq<Slot<V>>)
    requires writes == []
    ensures Recency(writes) == []
  {
  }

  lemma NoneWritten<V(!new)>(slots: seq<Slot<V>>, keys: set<string>)
    requires keys == {}
    ensures Unwritten(slots, keys) == slots
  {
    FilterAll(slots, (s: Slot<V>) => s.key !in keys);
  }

  lemma OneKey<V>(x: Slot<V>)
    ensures Keys([x]) == {x.key}
  {
    assert [x][0].key in Keys([x]);
  }

  lemma RecencyConcatOne<V(!new)>(a: seq<Slot<V>>, b: seq<Slot<V>>, x: Slot<V>)
    requires Recency(a + b) == Unwritten(Recency(a), Keys(b)) + Recency(b)
    ensures Recency(a + (b + [x])) == Unwritten(Recency(a), Keys(b + [x])) + Recency(b + [x])
  {
    var older := Except(Unwritten(Recency(a), Keys(b)), x.key);
    var newer := Except(Recency(b), x.key);
    RecencyLast(a + b, x);
    RecencyLast(b, x);
    ExceptConcat(Unwritten(Recency(a), Keys(b)), Recency(b), x.key);
    UnwrittenMore(Recency(a), Keys(b), x.key);
    KeysOfConcat(b, [x]);
    OneKey(x);
    Regroup(a, b, [x]);
    Regroup(older, newer, [x]);
  }

  lemma Regroup<T>(a: seq<T>, b: seq<T>, c: seq<T>)
    ensures (a + b) + c == a + (b + c)
  {
  }

  lemma RecencyLast<V(!new)>(a: seq<Slot<V>>, x: Slot<V>)
    ensures Recency(a + [x]) == Except(Recency(a), x.key) + [x]
  {
    assert (a + [x])[..|a|] == a;
  }

  // ---------------------------------------------------------------- what is live

  lemma LiveConcat<V(!new)>(a: seq<Slot<V>>, b: seq<Slot<V>>, now: int)
    ensures Live(a + b, now) == Live(a, now) + Live(b, now)
  {
    FilterConcat(a, b, (s: Slot<V>) => s.expiresAt > now);
  }

  lemma OneLive<V(!new)>(slot: Slot<V>, now: int)
    ensures Live([slot], now) == if slot.expiresAt > now then [slot] else []
  {
    assert [slot][..0] == [];
  }

  lemma NoneLive<V(!new)>(slots: seq<Slot<V>>, now: int)
    requires forall i :: 0 <= i < |slots| ==> slots[i].expiresAt <= now
    ensures Live(slots, now) == []
  {
    FilterNone(slots, (s: Slot<V>) => s.expiresAt > now);
  }

  lemma AllLive<V(!new)>(slots: seq<Slot<V>>, now: int)
    requires forall i :: 0 <= i < |slots| ==> slots[i].expiresAt > now
    ensures Live(slots, now) == slots
  {
    FilterAll(slots, (s: Slot<V>) => s.expiresAt > now);
  }

  /** Where everything before the cut is expired and everything after is live. */
  lemma LiveAfterCut<V(!new)>(slots: seq<Slot<V>>, cut: nat, now: int)
    requires cut <= |slots|
    requires forall i :: 0 <= i < cut ==> slots[i].expiresAt <= now
    requires forall i :: cut <= i < |slots| ==> slots[i].expiresAt > now
    ensures Live(slots, now) == slots[cut..]
  {
    hide Live;
    assert slots == slots[..cut] + slots[cut..];
    LiveConcat(slots[..cut], slots[cut..], now);
    NoneLive(slots[..cut], now);
    AllLive(slots[cut..], now);
  }

  /** With expiries in order, some cut divides the expired from the live. */
  lemma LiveCut<V(!new)>(slots: seq<Slot<V>>, now: int) returns (cut: nat)
    requires Ordered(slots)
    ensures cut <= |slots|
    ensures forall i :: 0 <= i < cut ==> slots[i].expiresAt <= now
    ensures forall i :: cut <= i < |slots| ==> slots[i].expiresAt > now
    ensures Live(slots, now) == slots[cut..]
  {
    hide Live;
    cut := 0;
    while cut < |slots| && slots[cut].expiresAt <= now
      invariant cut <= |slots|
      invariant forall i :: 0 <= i < cut ==> slots[i].expiresAt <= now
    {
      cut := cut + 1;
    }
    LiveAfterCut(slots, cut, now);
  }

  lemma LiveLastN<V(!new)>(slots: seq<Slot<V>>, now: int, m: nat)
    requires Ordered(slots)
    ensures Live(LastN(slots, m), now) == LastN(Live(slots, now), m)
  {
    var cut := LiveCut(slots, now);
    LiveLastNAt(slots, cut, now, m);
  }

  lemma LiveLastNAt<V(!new)>(slots: seq<Slot<V>>, cut: nat, now: int, m: nat)
    requires cut <= |slots|
    requires forall i :: 0 <= i < cut ==> slots[i].expiresAt <= now
    requires forall i :: cut <= i < |slots| ==> slots[i].expiresAt > now
    ensures Live(LastN(slots, m), now) == LastN(slots[cut..], m)
  {
    LastOfTail(slots, cut, m);
    LiveOfTail(slots, cut, if |slots| > m then |slots| - m else 0, now);
  }

  lemma LastOfTail<T>(s: seq<T>, cut: nat, m: nat)
    requires cut <= |s|
    ensures LastN(s[cut..], m) == if cut + m <= |s| then s[|s| - m..] else s[cut..]
  {
  }

  lemma LiveOfTail<V(!new)>(slots: seq<Slot<V>>, cut: nat, start: nat, now: int)
    requires cut <= |slots| && start <= |slots|
    requires forall i :: 0 <= i < cut ==> slots[i].expiresAt <= now
    requires forall i :: cut <= i < |slots| ==> slots[i].expiresAt > now
    ensures Live(slots[start..], now) == if cut <= start then slots[start..] else slots[cut..]
  {
    hide Live;
    var rest := slots[start..];
    var c := if cut <= start then 0 else cut - start;
    assert forall i :: 0 <= i < |rest| ==> rest[i] == slots[start + i];
    LiveAfterCut(rest, c, now);
    assert rest[c..] == slots[start + c..];
  }

  lemma {:induction false} LiveLater<V(!new)>(slots: seq<Slot<V>>, now: int, later: int)
    requires now <= later
    ensures Live(Live(slots, now), later) == Live(slots, later)
  {
    hide Live;
    if slots == [] {
      NoneLive(slots, now);
    } else {
      var n := |slots| - 1;
      LiveLater(slots[..n], now, later);
      LiveMore(slots[..n], slots[n], now);
      LiveMore(slots[..n], slots[n], later);
      LiveMore(Live(slots[..n], now), slots[n], later);
      assert slots == slots[..n] + [slots[n]];
    }
  }

  lemma {:induction false} LiveExcept<V(!new)>(slots: seq<Slot<V>>, now: int, key: string)
    ensures Live(Except(slots, key), now) == Except(Live(slots, now), key)
  {
    hide Live, Except;
    if slots == [] {
      ExceptAbsent(slots, key);
      NoneLive(slots, now);
    } else {
      var n := |slots| - 1;
      LiveExcept(slots[..n], now, key);
      LiveExceptMore(slots[..n], slots[n], now, key);
      assert slots == slots[..n] + [slots[n]];
    }
  }

  lemma LiveExceptMore<V(!new)>(slots: seq<Slot<V>>, x: Slot<V>, now: int, key: string)
    requires Live(Except(slots, key), now) == Except(Live(slots, now), key)
    ensures Live(Except(slots + [x], key), now) == Except(Live(slots + [x], now), key)
  {
    hide Live, Except;
    ExceptMore(slots, x, key);
    LiveMore(slots, x, now);
    LiveMore(Except(slots, key), x, now);
    ExceptMore(Live(slots, now), x, key);
  }

  lemma {:induction false} ExceptSize<V(!new)>(slots: seq<Slot<V>>, key: string)
    requires DistinctKeys(slots)
    ensures |Except(slots, key)| >= |slots| - 1
  {
    hide Except;
    if slots != [] {
      var n := |slots| - 1;
      assert slots == slots[..n] + [slots[n]];
      ExceptMore(slots[..n], slots[n], key);
      if slots[n].key == key {
        ExceptAbsent(slots[..n], key);
      } else {
        ExceptSize(slots[..n], key);
      }
    }
  }

  lemma ExceptMore<V(!new)>(slots: seq<Slot<V>>, x: Slot<V>, key: string)
    ensures Except(slots + [x], key) == if x.key != key then Except(slots, key) + [x] else Except(slots, key)
  {
    FilterMore(slots, x, (s: Slot<V>) => s.key != key);
  }

  lemma ExceptAbsent<V(!new)>(slots: seq<Slot<V>>, key: string)
    requires forall i :: 0 <= i < |slots| ==> slots[i].key != key
    ensures Except(slots, key) == slots
  {
    FilterAll(slots, (s: Slot<V>) => s.key != key);
  }

  lemma LastOfLonger<T>(a: seq<T>, b: seq<T>, m: nat)
    requires |b| >= m
    ensures LastN(a + b, m) == LastN(b, m)
  {
  }

  lemma DistinctTail<V>(slots: seq<Slot<V>>, m: nat)
    requires DistinctKeys(slots)
    ensures DistinctKeys(LastN(slots, m))
  {
  }

  /** A write sees only the newest `m` keys, yet leaves the same `m` as if it saw them all. */
  lemma TopExcept<V(!new)>(slots: seq<Slot<V>>, x: Slot<V>, m: nat)
    requires DistinctKeys(slots)
    ensures LastN(Except(LastN(slots, m), x.key) + [x], m) == LastN(Except(slots, x.key) + [x], m)
  {
    hide Except;
    if |slots| > m {
      var older, top := slots[..|slots| - m], slots[|slots| - m..];
      assert slots == older + top;
      DistinctTail(slots, m);
      ExceptConcat(older, top, x.key);
      ExceptSize(top, x.key);
      Regroup(Except(older, x.key), Except(top, x.key), [x]);
      LastOfLonger(Except(older, x.key), Except(top, x.key) + [x], m);
    }
  }

  // ---------------------------------------------------------------- the cache holds the newest keys

  /** The expiries never go back and end by `latest`. */
  predicate Paced<V>(writes: seq<Slot<V>>, latest: int) {
    writes == [] ||
    (var n := |writes| - 1; writes[n].expiresAt <= latest && Paced(writes[..n], writes[n].expiresAt))
  }

  lemma {:induction false} PacedOrders<V>(writes: seq<Slot<V>>, latest: int)
    requires Paced(writes, latest)
    ensures Ordered(writes)
    ensures forall i :: 0 <= i < |writes| ==> writes[i].expiresAt <= latest
  {
    if writes != [] {
      var n := |writes| - 1;
      PacedOrders(writes[..n], writes[n].expiresAt);
      assert forall i :: 0 <= i < n ==> writes[i] == writes[..n][i];
    }
  }

  lemma PacedMore<V>(writes: seq<Slot<V>>, x: Slot<V>, latest: int)
    requires Paced(writes, latest) && latest <= x.expiresAt
    ensures Paced(writes + [x], x.expiresAt)
  {
    assert (writes + [x])[..|writes|] == writes;
  }

  /** At this time the live slots are the live ones among the `capacity` keys written last. */
  ghost predicate Held<V(!new)>(slots: seq<Slot<V>>, writes: seq<Slot<V>>, now: int, ttl: int, capacity: nat) {
    && DistinctKeys(slots) && Paced(writes, now + ttl)
    && Live(slots, now) == Live(LastN(Recency(writes), capacity), now)
  }

  lemma HeldLater<V(!new)>(slots: seq<Slot<V>>, writes: seq<Slot<V>>, now: int, later: int, ttl: int, capacity: nat)
    requires Held(slots, writes, now, ttl, capacity) && now <= later
    ensures Held(slots, writes, later, ttl, capacity)
  {
    LiveLater(slots, now, later);
    LiveLater(LastN(Recency(writes), capacity), now, later);
  }

  lemma HeldAfterGet<V(!new)>(slots: seq<Slot<V>>, writes: seq<Slot<V>>, key: string, now: int, ttl: int, capacity: nat)
    requires Held(slots, writes, now, ttl, capacity)
    ensures Held(AfterGet(slots, key, now), writes, now, ttl, capacity)
  {
    var i := Find(slots, key);
    if i < |slots| && slots[i].expiresAt <= now {
      ExpiredUnseen(slots, i, now);
      RemovalKeepsKeys(slots, i);
    }
  }

  lemma RemovalKeepsKeys<V(!new)>(slots: seq<Slot<V>>, i: nat)
    requires i < |slots| && DistinctKeys(slots)
    ensures DistinctKeys(RemoveAt(slots, i))
  {
  }

  lemma ExpiredUnseen<V(!new)>(slots: seq<Slot<V>>, i: nat, now: int)
    requires i < |slots| && slots[i].expiresAt <= now
    ensures Live(RemoveAt(slots, i), now) == Live(slots, now)
  {
    var a, x, b := slots[..i], slots[i], slots[i + 1..];
    assert slots == a + ([x] + b);
    LiveConcat(a, [x] + b, now);
    LiveConcat([x], b, now);
    LiveConcat(a, b, now);
    OneLive(x, now);
  }

  lemma SetKeepsKeys<V(!new)>(slots: seq<Slot<V>>, x: Slot<V>, now: int, capacity: nat)
    requires DistinctKeys(slots)
    ensures DistinctKeys(AfterSet(slots, x, now, capacity))
  {
    LiveKeepsKeys(slots, now);
    ExceptKeepsKeys(Live(slots, now), x.key);
    hide Live, Except;
    AppendedKeys(Except(Live(slots, now), x.key), x, capacity);
  }

  lemma LiveKeepsKeys<V(!new)>(slots: seq<Slot<V>>, now: int)
    requires DistinctKeys(slots)
    ensures DistinctKeys(Live(slots, now))
  {
    hide Filter;
    FilterOrders(slots, (s: Slot<V>) => s.expiresAt > now);
  }

  lemma ExceptKeepsKeys<V(!new)>(slots: seq<Slot<V>>, key: string)
    requires DistinctKeys(slots)
    ensures DistinctKeys(Except(slots, key)) && forall s :: s in Except(slots, key) ==> s.key != key
  {
    hide Filter;
    FilterOrders(slots, (s: Slot<V>) => s.key != key);
  }

  lemma AppendedKeys<V(!new)>(others: seq<Slot<V>>, x: Slot<V>, capacity: nat)
    requires DistinctKeys(others) && forall s :: s in others ==> s.key != x.key
    ensures DistinctKeys(LastN(others + [x], capacity))
  {
    forall i | 0 <= i < |others| ensures others[i].key != x.key {
      assert others[i] in others;
    }
  }

  /** The live slots after a write, computed from the slots and from the recency list. */
  lemma LiveAfterSet<V(!new)>(slots: seq<Slot<V>>, recent: seq<Slot<V>>, x: Slot<V>, now: int, capacity: nat)
    requires DistinctKeys(recent) && Ordered(recent)
    requires Live(slots, now) == Live(LastN(recent, capacity), now)
    ensures AfterSet(slots, x, now, capacity) == LastN(Except(Live(recent, now), x.key) + [x], capacity)
    ensures Live(Except(recent, x.key) + [x], now) == Except(Live(recent, now), x.key) + Live([x], now)
  {
    LiveLastN(recent, now, capacity);
    FilterOrders(recent, (s: Slot<V>) => s.expiresAt > now);
    TopExcept(Live(recent, now), x, capacity);
    LiveExcept(recent, now, x.key);
    LiveConcat(Except(recent, x.key), [x], now);
  }

  lemma HeldAfterSet<V(!new)>(slots: seq<Slot<V>>, writes: seq<Slot<V>>, x: Slot<V>, now: int, ttl: int, capacity: nat)
    requires Held(slots, writes, now, ttl, capacity) && x.expiresAt == now + ttl
    ensures Held(AfterSet(slots, x, now, capacity), writes + [x], now, ttl, capacity)
  {
    SetKeepsKeys(slots, x, now, capacity);
    PacedMore(writes, x, now + ttl);
    PacedOrders(writes, now + ttl);
    PacedOrders(writes + [x], now + ttl);
    RecencyOrders(writes);
    RecencyOrders(writes + [x]);
    RecencyLast(writes, x);
    if ttl <= 0 {
      forall i | 0 <= i < |Recency(writes)| ensures Recency(writes)[i].expiresAt <= now {
        assert Recency(writes)[i] in writes;
      }
      NoneLive(Recency(writes), now);
    }
    TopHeld(slots, Recency(writes), x, now, capacity);
  }

  lemma TopHeld<V(!new)>(slots: seq<Slot<V>>, recent: seq<Slot<V>>, x: Slot<V>, now: int, capacity: nat)
    requires DistinctKeys(recent) && Ordered(recent) && Ordered(Except(recent, x.key) + [x])
    requires Live(slots, now) == Live(LastN(recent, capacity), now)
    requires x.expiresAt <= now ==> Live(recent, now) == []
    ensures Live(AfterSet(slots, x, now, capacity), now) == Live(LastN(Except(recent, x.key) + [x], capacity), now)
  {
    LiveAfterSet(slots, recent, x, now, capacity);
    LiveLastN(Except(recent, x.key) + [x], now, capacity);
    TopLive(Except(Live(recent, now), x.key), x, now, capacity);
  }

  /** Either everything written is live, or the write that just happened is already expired with all before it. */
  lemma TopLive<V(!new)>(others: seq<Slot<V>>, x: Slot<V>, now: int, capacity: nat)
    requires forall s :: s in others ==> s.expiresAt > now
    requires x.expiresAt <= now ==> others == []
    ensures Live(LastN(others + [x], capacity), now) == LastN(others + Live([x], now), capacity)
  {
    OneLive(x, now);
    if x.expiresAt > now {
      AllLive(LastN(others + [x], capacity), now);
    } else {
      NoneLive(LastN(others + [x], capacity), now);
    }
  }

  // ---------------------------------------------------------------- answers

  lemma {:induction false} HeldRun<V(!new)>(calls: seq<Call<V>>, now: int, ttl: int, capacity: nat)
    requires Steady(calls + [GetCall("", now)])
    ensures Held(Run(calls, ttl, capacity), Writes(calls, ttl), now, ttl, capacity)
    decreases |calls|
  {
    if calls != [] {
      var n := |calls| - 1;
      var at := calls[n].now;
      var all := calls + [GetCall("", now)];
      assert all[n] == calls[n] && all[n + 1].now == now;
      var some := calls[..n] + [GetCall("", at)];
      assert forall i :: 0 <= i <= n ==> some[i].now == all[i].now;
      HeldRun(calls[..n], at, ttl, capacity);
      HeldStep(Run(calls[..n], ttl, capacity), Writes(calls[..n], ttl), calls[n], ttl, capacity);
      HeldLater(Run(calls, ttl, capacity), Writes(calls, ttl), at, now, ttl, capacity);
    }
  }

  lemma HeldStepGet<V(!new)>(slots: seq<Slot<V>>, writes: seq<Slot<V>>, call: Call<V>, ttl: int, capacity: nat)
    requires call.GetCall? && Held(slots, writes, call.now, ttl, capacity)
    ensures Held(Next(slots, call, ttl, capacity), writes, call.now, ttl, capacity)
  {
    HeldAfterGet(slots, writes, call.key, call.now, ttl, capacity);
  }

  lemma HeldStepSet<V(!new)>(slots: seq<Slot<V>>, writes: seq<Slot<V>>, call: Call<V>, ttl: int, capacity: nat)
    requires call.SetCall? && Held(slots, writes, call.now, ttl, capacity)
    ensures Held(Next(slots, call, ttl, capacity), Wrote(writes, call, ttl), call.now, ttl, capacity)
  {
    hide Held, AfterSet;
    HeldAfterSet(slots, writes, Slot(call.key, call.now + ttl, call.value), call.now, ttl, capacity);
  }

  lemma HeldStep<V(!new)>(slots: seq<Slot<V>>, writes: seq<Slot<V>>, call: Call<V>, ttl: int, capacity: nat)
    requires Held(slots, writes, call.now, ttl, capacity)
    ensures Held(Next(slots, call, ttl, capacity), Wrote(writes, call, ttl), call.now, ttl, capacity)
  {
    if call.GetCall? {
      HeldStepGet(slots, writes, call, ttl, capacity);
    } else {
      HeldStepSet(slots, writes, call, ttl, capacity);
    }
  }

  /** Only live slots answer. */
  lemma {:induction false} LookupLive<V(!new)>(slots: seq<Slot<V>>, key: string, now: int)
    requires DistinctKeys(slots)
    ensures Lookup(slots, key, now) == Lookup(Live(slots, now), key, now)
  {
    hide Live, Lookup;
    if slots == [] {
      AllLive(slots, now);
    } else {
      var n := |slots| - 1;
      LookupLive(slots[..n], key, now);
      LookupLiveMore(slots[..n], slots[n], key, now);
      assert slots == slots[..n] + [slots[n]];
    }
  }

  lemma LookupLiveMore<V(!new)>(slots: seq<Slot<V>>, x: Slot<V>, key: string, now: int)
    requires forall i :: 0 <= i < |slots| ==> slots[i].key != x.key
    requires Lookup(slots, key, now) == Lookup(Live(slots, now), key, now)
    ensures Lookup(slots + [x], key, now) == Lookup(Live(slots + [x], now), key, now)
  {
    LookupMore(slots, x, key, now);
    LiveMore(slots, x, now);
    LiveFrom(slots, now);
    if x.expiresAt > now {
      LookupMore(Live(slots, now), x, key, now);
    } else {
      assert x.key == key ==> Find(slots, key) == |slots|;
    }
  }

  lemma LiveMore<V(!new)>(slots: seq<Slot<V>>, x: Slot<V>, now: int)
    ensures Live(slots + [x], now) == if x.expiresAt > now then Live(slots, now) + [x] else Live(slots, now)
  {
    FilterMore(slots, x, (s: Slot<V>) => s.expiresAt > now);
  }

  lemma LiveFrom<V(!new)>(slots: seq<Slot<V>>, now: int)
    ensures forall s :: s in Live(slots, now) ==> s in slots
  {
  }

  lemma LookupMore<V>(slots: seq<Slot<V>>, x: Slot<V>, key: string, now: int)
    requires forall s :: s in slots ==> s.key != x.key
    ensures Lookup(slots + [x], key, now)
         == if x.key != key then Lookup(slots, key, now) else if x.expiresAt > now then Some(x.value) else None
  {
    var all := slots + [x];
    var i, j := Find(all, key), Find(slots, key);
    if j < |slots| {
      assert all[j].key == key;
      assert i == j;
    } else if x.key == key {
      assert all[|slots|].key == key;
    }
  }

  /** Where the last write of a key stands in the recency list. */
  lemma Positioned<V(!new)>(earlier: seq<Slot<V>>, w: Slot<V>, later: seq<Slot<V>>)
    requires w.key !in Keys(later)
    ensures Recency(earlier + [w] + later) == Unwritten(Except(Recency(earlier), w.key), Keys(later)) + [w] + Recency(later)
  {
    RecencyConcat(earlier + [w], later);
    RecencyLast(earlier, w);
    UnwrittenOne(Except(Recency(earlier), w.key), w, Keys(later));
  }

  lemma UnwrittenOne<V(!new)>(slots: seq<Slot<V>>, w: Slot<V>, keys: set<string>)
    requires w.key !in keys
    ensures Unwritten(slots + [w], keys) == Unwritten(slots, keys) + [w]
  {
    assert (slots + [w])[..|slots|] == slots;
  }

  /** The newest of a list, by position. */
  lemma NewestAt<V>(all: seq<Slot<V>>, capacity: nat)
    ensures var top := LastN(all, capacity);
            |top| <= |all| && |top| == (if |all| <= capacity then |all| else capacity)
            && forall j :: 0 <= j < |top| ==> top[j] == all[|all| - |top| + j]
  {
  }

  lemma FoundAt<V>(slots: seq<Slot<V>>, i: nat, now: int)
    requires DistinctKeys(slots) && i < |slots|
    ensures Lookup(slots, slots[i].key, now) == if slots[i].expiresAt > now then Some(slots[i].value) else None
  {
    assert Find(slots, slots[i].key) == i;
  }

  /** An entry answers from the newest `capacity` exactly when fewer than that follow it. */
  lemma FoundAmongNewest<V>(older: seq<Slot<V>>, w: Slot<V>, newer: seq<Slot<V>>, now: int, capacity: nat)
    requires DistinctKeys(older + [w] + newer)
    ensures Lookup(LastN(older + [w] + newer, capacity), w.key, now)
         == if |newer| < capacity && w.expiresAt > now then Some(w.value) else None
  {
    hide LastN, Lookup;
    var all := older + [w] + newer;
    var top := LastN(all, capacity);
    assert all[|older|] == w;
    NewestAt(all, capacity);
    var skipped := |all| - |top|;
    if |newer| < capacity {
      FoundAt(top, |older| - skipped, now);
    } else {
      forall j | 0 <= j < |top| ensures top[j].key != w.key { assert top[j] == all[skipped + j]; }
      AbsentKey(top, w.key, now);
    }
  }

  lemma AbsentKey<V>(slots: seq<Slot<V>>, key: string, now: int)
    requires forall j :: 0 <= j < |slots| ==> slots[j].key != key
    ensures Lookup(slots, key, now) == None
  {
  }

  lemma NotFound<V>(slots: seq<Slot<V>>, key: string, now: int)
    requires key !in Keys(slots)
    ensures Lookup(slots, key, now) == None
  {
    assert forall i :: 0 <= i < |slots| ==> slots[i].key in Keys(slots);
  }

  /** The newest `capacity` keys answer as the history does. */
  lemma NewestAnswer<V(!new)>(writes: seq<Slot<V>>, key: string, now: int, capacity: nat)
    ensures Lookup(LastN(Recency(writes), capacity), key, now) == Answer(writes, key, now, capacity)
  {
    hide Recency, Lookup, LastN;
    var i := Last(writes, (w: Slot<V>) => w.key == key);
    if i == |writes| {
      NoAnswer(writes, key, now, capacity);
    } else {
      assert writes == writes[..i] + [writes[i]] + writes[i + 1..];
      WrittenAnswer(writes[..i], writes[i], writes[i + 1..], now, capacity);
    }
  }

  lemma NoAnswer<V(!new)>(writes: seq<Slot<V>>, key: string, now: int, capacity: nat)
    requires key !in Keys(writes)
    ensures Lookup(LastN(Recency(writes), capacity), key, now) == None
  {
    RecencyKeys(writes);
    assert Keys(LastN(Recency(writes), capacity)) <= Keys(Recency(writes));
    NotFound(LastN(Recency(writes), capacity), key, now);
  }

  lemma WrittenAnswer<V(!new)>(earlier: seq<Slot<V>>, w: Slot<V>, later: seq<Slot<V>>, now: int, capacity: nat)
    requires w.key !in Keys(later)
    ensures Lookup(LastN(Recency(earlier + [w] + later), capacity), w.key, now)
         == if w.expiresAt > now && |Keys(later)| < capacity then Some(w.value) else None
  {
    Positioned(earlier, w, later);
    RecencyOrders(earlier + [w] + later);
    RecencyOrders(later);
    RecencyKeys(later);
    KeysCounted(Recency(later));
    FoundAmongNewest(Unwritten(Except(Recency(earlier), w.key), Keys(later)), w, Recency(later), now, capacity);
  }

  /**
   * After any run of calls whose clock never goes back, a lookup answers what the history says:
   * the last write of the key, if it is unexpired and fewer than `capacity` distinct other keys
   * were written since.
   */
  lemma CacheAnswersHistory<V(!new)>(calls: seq<Call<V>>, key: string, now: int, ttl: int, capacity: nat)
    requires Steady(calls + [GetCall(key, now)])
    ensures Lookup(Run(calls, ttl, capacity), key, now) == Answer(Writes(calls, ttl), key, now, capacity)
  {
    var all, asked := calls + [GetCall("", now)], calls + [GetCall(key, now)];
    assert forall i :: 0 <= i < |all| ==> all[i].now == asked[i].now;
    HeldRun(calls, now, ttl, capacity);
    var slots, writes := Run(calls, ttl, capacity), Writes(calls, ttl);
    RecencyOrders(writes);
    PacedOrders(writes, now + ttl);
    LookupLive(slots, key, now);
    LookupLive(LastN(Recency(writes), capacity), key, now);
    NewestAnswer(writes, key, now, capacity);
  }

  /** Memory is bounded after every call, whatever the clock does. */
  lemma {:induction false} CacheIsBounded<V(!new)>(calls: seq<Call<V>>, ttl: int, capacity: nat)
    ensures |Run(calls, ttl, capacity)| <= capacity
  {
    if calls != [] { CacheIsBounded(calls[..|calls| - 1], ttl, capacity); }
  }
}
