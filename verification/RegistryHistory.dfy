/**
 * Loading a stored registry: every active fact is kept, history is bounded
 * (`normalizeFactRegistry`, packages/core/src/digest/state.ts).
 */
module RegistryHistory {
  import opened Seqs
  import opened FactRegistry
  import opened RegistryLaws

  const HISTORY_LIMIT := 500

  function History(r: seq<Entry>): seq<Entry> {
    Filter(r, e => !Active(e))
  }

  /** The entries of `r` that are active or listed in `kept`, in their order. */
  function Keep(r: seq<Entry>, kept: seq<Entry>): seq<Entry> {
    Filter(r, e => Active(e) || e in kept)
  }

  /** Active entries and the most recent slice of the inactive ones, in their original order. */
  function Normalize(r: seq<Entry>): seq<Entry> {
    Keep(r, LastN(History(r), HISTORY_LIMIT))
  }

  /** The same bound counted from the newest entry backwards: at most `n` inactive entries stay. */
  function Trim(r: seq<Entry>, n: nat): seq<Entry> {
    if r == [] then []
    else
      var last := |r| - 1;
      if Active(r[last]) then Trim(r[..last], n) + [r[last]]
      else if n > 0 then Trim(r[..last], n - 1) + [r[last]]
      else Trim(r[..last], 0)
  }

  // ---------------------------------------------------------------- the two forms agree

  lemma HistoryMore(r: seq<Entry>, e: Entry)
    ensures History(r + [e]) == if Active(e) then History(r) else History(r) + [e]
  {
    assert (r + [e])[..|r|] == r;
  }

  lemma KeepMore(r: seq<Entry>, e: Entry, kept: seq<Entry>)
    ensures Keep(r + [e], kept) == if Active(e) || e in kept then Keep(r, kept) + [e] else Keep(r, kept)
  {
    assert (r + [e])[..|r|] == r;
  }

  lemma {:induction false} KeepCong(r: seq<Entry>, kept: seq<Entry>, kept': seq<Entry>)
    requires forall x :: x in r ==> (x in kept <==> x in kept')
    ensures Keep(r, kept) == Keep(r, kept')
  {
    if r != [] {
      var last := |r| - 1;
      assert r == r[..last] + [r[last]];
      KeepCong(r[..last], kept, kept');
      KeepMore(r[..last], r[last], kept);
      KeepMore(r[..last], r[last], kept');
    }
  }

  /** One more entry in front of which `n` slots were counted. */
  lemma TrimMore(r: seq<Entry>, e: Entry, n: nat)
    ensures Trim(r + [e], n) == if Active(e) then Trim(r, n) + [e] else if n > 0 then Trim(r, n - 1) + [e] else Trim(r, 0)
  {
    assert (r + [e])[..|r|] == r;
  }

  /** With `n` slots, the backward count keeps exactly the last `n` inactive entries. */
  lemma {:induction false} TrimIsKeep(r: seq<Entry>, n: nat)
    requires UniqueIds(r)
    ensures Trim(r, n) == Keep(r, LastN(History(r), n))
  {
    if r != [] {
      var last := |r| - 1;
      assert r == r[..last] + [r[last]];
      TrimIsKeep(r[..last], if Active(r[last]) || n == 0 then n else n - 1);
      TrimIsKeepMore(r[..last], r[last], n);
    }
  }

  lemma TrimIsKeepMore(r: seq<Entry>, e: Entry, n: nat)
    requires e !in r
    requires var m := if Active(e) || n == 0 then n else n - 1; Trim(r, m) == Keep(r, LastN(History(r), m))
    ensures Trim(r + [e], n) == Keep(r + [e], LastN(History(r + [e]), n))
  {
    hide Trim, Keep, History;
    TrimMore(r, e, n);
    HistoryMore(r, e);
    KeepMore(r, e, LastN(History(r + [e]), n));
    if !Active(e) {
      if n > 0 {
        assert LastN(History(r) + [e], n) == LastN(History(r), n - 1) + [e];
        KeepCong(r, LastN(History(r), n - 1), LastN(History(r), n - 1) + [e]);
      } else {
        assert LastN(History(r), 0) == [] == LastN(History(r) + [e], 0);
      }
    }
  }

  /** Normalising is the backward count with 500 slots. */
  lemma NormalizeIsTrim(r: seq<Entry>)
    requires UniqueIds(r)
    ensures Normalize(r) == Trim(r, HISTORY_LIMIT)
  {
    TrimIsKeep(r, HISTORY_LIMIT);
  }

  // ---------------------------------------------------------------- what is kept

  lemma NormalizeAllActive(r: seq<Entry>)
    requires forall e :: e in r ==> Active(e)
    ensures Normalize(r) == r
  {
    FilterAll(r, e => Active(e) || e in LastN(History(r), HISTORY_LIMIT));
  }

  function ActiveOnly(r: seq<Entry>): seq<Entry> {
    Filter(r, e => Active(e))
  }

  /** There is a point before which only active entries are kept and after which all are. */
  lemma {:induction false} TrimShape(r: seq<Entry>, n: nat) returns (cut: nat)
    ensures cut <= |r|
    ensures Trim(r, n) == ActiveOnly(r[..cut]) + r[cut..]
  {
    if r == [] {
      cut := 0;
    } else {
      var last := |r| - 1;
      if Active(r[last]) || n > 0 {
        var m := if Active(r[last]) then n else n - 1;
        cut := TrimShape(r[..last], m);
        assert Trim(r, n) == Trim(r[..last], m) + [r[last]];
        assert r[..last][..cut] == r[..cut];
        assert r[cut..] == r[..last][cut..] + [r[last]];
      } else {
        AllInactiveTail(r);
        cut := |r|;
        assert r[..cut] == r && r[cut..] == [];
        assert Trim(r, n) == ActiveOnly(r) + [];
      }
    }
  }

  lemma {:induction false} AllInactiveTail(r: seq<Entry>)
    ensures Trim(r, 0) == ActiveOnly(r)
  {
    if r != [] {
      var last := |r| - 1;
      AllInactiveTail(r[..last]);
      assert ActiveOnly(r) == ActiveOnly(r[..last]) + if Active(r[last]) then [r[last]] else [];
    }
  }

  /** No active entry is ever dropped, and nothing is invented. */
  lemma NormalizeKeepsActive(r: seq<Entry>)
    ensures forall e :: e in Normalize(r) ==> e in r
    ensures forall e :: e in r && Active(e) ==> e in Normalize(r)
  {
  }

  lemma {:induction false} FilterUnique(r: seq<Entry>, p: Entry -> bool)
    requires UniqueIds(r)
    ensures UniqueIds(Filter(r, p))
  {
    if r != [] {
      var n := |r| - 1;
      FilterUnique(r[..n], p);
      var f := Filter(r[..n], p);
      forall i | 0 <= i < |f| ensures f[i].id != r[n].id {
        assert f[i] in r[..n];
      }
    }
  }

  lemma {:induction false} FilterPointers(r: seq<Entry>, p: Entry -> bool, id: Id)
    ensures Pointers(Filter(r, p), id) <= Pointers(r, id)
  {
    if r != [] {
      var n := |r| - 1;
      FilterPointers(r[..n], p, id);
      if p(r[n]) {
        var f := Filter(r[..n], p) + [r[n]];
        assert f[..|f| - 1] == Filter(r[..n], p);
      } else {
        assert Filter(r, p) == Filter(r[..n], p) + [];
        assert Filter(r, p) == Filter(r[..n], p);
      }
    }
  }

  /** A caller's note is still recognised as one after history is dropped. */
  lemma NormalizeKeepsCallers(r: seq<Entry>, e: Entry)
    requires IsCallerNote(e, r)
    ensures IsCallerNote(e, Normalize(r))
  {
    var kept := LastN(History(r), HISTORY_LIMIT);
    FilterPointers(r, x => Active(x) || x in kept, e.id);
  }

  lemma NormalizeUnique(r: seq<Entry>)
    requires UniqueIds(r)
    ensures UniqueIds(Normalize(r))
  {
    var kept := LastN(History(r), HISTORY_LIMIT);
    FilterUnique(r, x => Active(x) || x in kept);
  }

  lemma {:induction false} TrimBounds(r: seq<Entry>, n: nat)
    ensures |History(Trim(r, n))| <= n
    ensures |History(r)| <= n ==> Trim(r, n) == r
  {
    if r != [] {
      var last := |r| - 1;
      assert r == r[..last] + [r[last]];
      if Active(r[last]) || n > 0 {
        var m := if Active(r[last]) then n else n - 1;
        TrimBounds(r[..last], m);
        assert (Trim(r[..last], m) + [r[last]])[..|Trim(r[..last], m)|] == Trim(r[..last], m);
      } else {
        TrimBounds(r[..last], 0);
      }
    }
  }

  /** Normalising twice is normalising once, and at most 500 inactive entries remain. */
  lemma NormalizeIdempotent(r: seq<Entry>)
    requires UniqueIds(r)
    ensures Normalize(Normalize(r)) == Normalize(r)
    ensures |History(Normalize(r))| <= HISTORY_LIMIT
  {
    NormalizeIsTrim(r);
    NormalizeUnique(r);
    NormalizeIsTrim(Normalize(r));
    TrimBounds(r, HISTORY_LIMIT);
    TrimBounds(Normalize(r), HISTORY_LIMIT);
  }

  /** The ledger part of `normalizeDigestState`: the profile is copied through unjudged. */
  function NormalizeLedger(s: Ledger): Ledger {
    s.(registry := Normalize(s.registry))
  }
}
