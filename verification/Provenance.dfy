/**
 * Reading a fact's audit chain: back to its oldest version, then forward along the supersession
 * links (`buildFactProvenance`, packages/core/src/provenance.ts).
 */
module Provenance {
  import opened Options
  import opened Seqs
  import opened FactRegistry
  import opened RegistryLaws
  import opened RegistryHistory

  /** The last entry that names `id` as its replacement, as the predecessor `Map` holds it. */
  function Predecessor(r: seq<Entry>, id: Id): (i: nat)
    ensures i <= |r|
    ensures i < |r| ==> r[i].supersededBy == Some(id) && forall j :: i < j < |r| ==> r[j].supersededBy != Some(id)
    ensures i == |r| ==> forall j :: 0 <= j < |r| ==> r[j].supersededBy != Some(id)
  {
    Last(r, (e: Entry) => e.supersededBy == Some(id))
  }

  /** The entry an entry links to, with the length standing for none. */
  function Next(r: seq<Entry>, i: nat): (j: nat)
    requires i < |r|
    ensures j <= |r|
    ensures j < |r| ==> r[i].supersededBy == Some(r[j].id)
  {
    if r[i].supersededBy.Some? then ById(r, r[i].supersededBy.value) else |r|
  }

  /** The backward walk, oldest first; it stops at an entry already seen. */
  function Ancestry(r: seq<Entry>, i: nat, seen: set<Id>): (path: seq<nat>)
    requires i < |r|
    ensures path != [] && path[|path| - 1] == i
    ensures forall k :: 0 <= k < |path| ==> path[k] < |r|
    decreases |Ids(r) - seen|
  {
    var p := Predecessor(r, r[i].id);
    if p == |r| || r[p].id in seen then [i]
    else
      assert r[p] in r;
      Fewer(Ids(r), seen, r[p].id);
      Ancestry(r, p, seen + {r[p].id}) + [i]
  }

  /** The forward walk; it stops at an entry already seen. */
  function Forward(r: seq<Entry>, i: nat, seen: set<Id>): (path: seq<nat>)
    requires i <= |r|
    ensures forall k :: 0 <= k < |path| ==> path[k] < |r|
    decreases |Ids(r) - seen|
  {
    if i == |r| || r[i].id in seen then []
    else
      assert r[i] in r;
      Fewer(Ids(r), seen, r[i].id);
      [i] + Forward(r, Next(r, i), seen + {r[i].id})
  }

  lemma Fewer(all: set<Id>, seen: set<Id>, id: Id)
    requires id in all && id !in seen
    ensures |all - (seen + {id})| < |all - seen|
  {
    assert all - seen == (all - (seen + {id})) + {id};
  }

  function EntriesAt(r: seq<Entry>, path: seq<nat>): (es: seq<Entry>)
    requires forall k :: 0 <= k < |path| ==> path[k] < |r|
    ensures |es| == |path| && forall k :: 0 <= k < |path| ==> es[k] == r[path[k]]
  {
    seq(|path|, k requires 0 <= k < |path| => r[path[k]])
  }

  datatype Answer = Answer(fact: Entry, chain: seq<Entry>)

  function FindFact(r: seq<Entry>, id: Id): (i: nat)
    ensures i <= |r|
    ensures i < |r| ==> r[i].id == id
    ensures forall j :: 0 <= j < i ==> r[j].id != id
  {
    First(r, (e: Entry) => e.id == id)
  }

  /** The chain read from the entry at `i`. */
  function ChainAt(r: seq<Entry>, i: nat): (path: seq<nat>)
    requires i < |r|
    ensures forall k :: 0 <= k < |path| ==> path[k] < |r|
  {
    Forward(r, Ancestry(r, i, {r[i].id})[0], {})
  }

  function BuildProvenance(r: seq<Entry>, id: Id): Option<Answer> {
    var i := FindFact(r, id);
    if i == |r| then None else Some(Answer(r[i], EntriesAt(r, ChainAt(r, i))))
  }

  // ---------------------------------------------------------------- any registry, even cyclic or dangling

  predicate Linked(r: seq<Entry>, path: seq<nat>) {
    && (forall k :: 0 <= k < |path| ==> path[k] < |r|)
    && (forall k :: 0 <= k < |path| - 1 ==> r[path[k]].supersededBy == Some(r[path[k + 1]].id))
  }

  predicate Distinct(r: seq<Entry>, path: seq<nat>) {
    && (forall k :: 0 <= k < |path| ==> path[k] < |r|)
    && (forall k, l :: 0 <= k < l < |path| ==> r[path[k]].id != r[path[l]].id)
  }

  lemma {:induction false} ForwardShape(r: seq<Entry>, i: nat, seen: set<Id>)
    requires i <= |r|
    ensures var path := Forward(r, i, seen);
            && Linked(r, path) && Distinct(r, path)
            && (forall k :: 0 <= k < |path| ==> r[path[k]].id !in seen)
            && (path != [] ==> path[0] == i)
    decreases |Ids(r) - seen|
  {
    hide Linked, Distinct, Next, Ids;
    if i < |r| && r[i].id !in seen {
      IdHere(r, i);
      Fewer(Ids(r), seen, r[i].id);
      ForwardShape(r, Next(r, i), seen + {r[i].id});
      ForwardMore(r, i, Forward(r, Next(r, i), seen + {r[i].id}), seen);
    } else {
      NoPath(r);
    }
  }

  lemma IdHere(r: seq<Entry>, i: nat)
    requires i < |r|
    ensures r[i].id in Ids(r)
  {
    assert r[i] in r;
  }

  lemma NoPath(r: seq<Entry>)
    ensures Linked(r, []) && Distinct(r, [])
  {
  }

  /** One entry before a linked path that starts at what it links to. */
  lemma ForwardMore(r: seq<Entry>, i: nat, rest: seq<nat>, seen: set<Id>)
    requires i < |r| && Linked(r, rest) && Distinct(r, rest) && r[i].id !in seen
    requires forall k :: 0 <= k < |rest| ==> r[rest[k]].id !in seen + {r[i].id}
    requires rest != [] ==> rest[0] == Next(r, i)
    ensures Linked(r, [i] + rest) && Distinct(r, [i] + rest)
    ensures forall k :: 0 <= k < |[i] + rest| ==> r[([i] + rest)[k]].id !in seen
  {
    var path := [i] + rest;
    assert forall k :: 1 <= k < |path| ==> path[k] == rest[k - 1];
    forall k | 0 <= k < |path| - 1 ensures r[path[k]].supersededBy == Some(r[path[k + 1]].id) {
      if k > 0 { assert r[rest[k - 1]].supersededBy == Some(r[rest[k]].id); }
    }
  }

  lemma {:induction false} AncestryShape(r: seq<Entry>, i: nat, seen: set<Id>)
    requires i < |r| && r[i].id in seen
    ensures var path := Ancestry(r, i, seen);
            && Linked(r, path) && Distinct(r, path)
            && (forall k :: 0 <= k < |path| - 1 ==> r[path[k]].id !in seen)
    decreases |Ids(r) - seen|
  {
    hide Ids;
    var p := Predecessor(r, r[i].id);
    if p < |r| && r[p].id !in seen {
      IdHere(r, p);
      Fewer(Ids(r), seen, r[p].id);
      AncestryShape(r, p, seen + {r[p].id});
      var up := Ancestry(r, p, seen + {r[p].id});
      var path := Ancestry(r, i, seen);
      assert path == up + [i];
      forall k | 0 <= k < |path| - 1 ensures r[path[k]].id !in seen && r[path[k]].supersededBy == Some(r[path[k + 1]].id) {
        if k == |up| - 1 { assert path[k] == p; }
      }
    }
  }

  /** Going forward from a point of a distinct, linked path retraces the rest of the path. */
  lemma {:induction false} ForwardRetraces(r: seq<Entry>, path: seq<nat>, k: nat, seen: set<Id>)
    requires UniqueIds(r) && Linked(r, path) && Distinct(r, path) && k < |path|
    requires forall l :: k <= l < |path| ==> r[path[l]].id !in seen
    ensures path[k..] <= Forward(r, path[k], seen)
    decreases |path| - k
  {
    if k + 1 < |path| {
      var n := Next(r, path[k]);
      assert r[path[k]].supersededBy == Some(r[path[k + 1]].id);
      assert n == path[k + 1];
      assert r[path[k]] in r;
      ForwardRetraces(r, path, k + 1, seen + {r[path[k]].id});
      assert path[k..] == [path[k]] + path[k + 1..];
    }
  }

  /** For any registry with unique ids: the chain holds the fact, repeats nothing, and links each version to the next. */
  lemma ProvenanceIsAChain(r: seq<Entry>, i: nat)
    requires UniqueIds(r) && i < |r|
    ensures var chain := ChainAt(r, i);
            Linked(r, chain) && Distinct(r, chain) && i in chain
    ensures Ancestry(r, i, {r[i].id}) <= ChainAt(r, i)
  {
    var up := Ancestry(r, i, {r[i].id});
    AncestryShape(r, i, {r[i].id});
    ForwardShape(r, up[0], {});
    ForwardRetraces(r, up, 0, {});
    assert up[0..] == up;
    assert ChainAt(r, i)[|up| - 1] == i;
  }

  // ---------------------------------------------------------------- where the walks go and stop

  /** The entry at `p` names the id as its replacement, and none after it does. */
  predicate NamedLast(r: seq<Entry>, p: nat, id: Id) {
    p < |r| && r[p].supersededBy == Some(id) && forall j :: p < j < |r| ==> r[j].supersededBy != Some(id)
  }

  predicate OnPath(r: seq<Entry>, path: seq<nat>, id: Id) {
    exists k :: 0 <= k < |path| && path[k] < |r| && r[path[k]].id == id
  }

  /**
   * From the fact back, each version is the last entry that names the next; the chain begins where
   * nothing names it, or what does is on the way already; it ends where nothing replaces it, or
   * what does is missing or on the chain already.
   */
  predicate ExactChain(r: seq<Entry>, chain: seq<nat>, i: nat, m: nat) {
    && Linked(r, chain) && Distinct(r, chain) && m < |chain| && chain[m] == i
    && (forall k :: 0 <= k < m ==> NamedLast(r, chain[k], r[chain[k + 1]].id))
    && ((forall j :: 0 <= j < |r| ==> r[j].supersededBy != Some(r[chain[0]].id))
        || exists p :: 0 <= p < |r| && NamedLast(r, p, r[chain[0]].id) && OnPath(r, chain[..m + 1], r[p].id))
    && EndsAt(r, r[chain[|chain| - 1]].supersededBy, chain)
  }

  /** The link leads nowhere, to no entry, or to one of the chain. */
  predicate EndsAt(r: seq<Entry>, to: Option<Id>, chain: seq<nat>) {
    to.None? || (forall j :: 0 <= j < |r| ==> r[j].id != to.value) || OnPath(r, chain, to.value)
  }

  /** The backward walk stops at an entry nothing names, or that an entry seen or on the path names. */
  predicate StartsAt(r: seq<Entry>, path: seq<nat>, seen: set<Id>) {
    && path != [] && path[0] < |r|
    && var p := Predecessor(r, r[path[0]].id); p == |r| || r[p].id in seen || OnPath(r, path, r[p].id)
  }

  lemma OnLonger(r: seq<Entry>, a: seq<nat>, b: seq<nat>, id: Id)
    requires OnPath(r, a, id) || OnPath(r, b, id)
    ensures OnPath(r, a + b, id)
  {
    if OnPath(r, a, id) {
      var k :| 0 <= k < |a| && a[k] < |r| && r[a[k]].id == id;
      assert (a + b)[k] == a[k];
    } else {
      var k :| 0 <= k < |b| && b[k] < |r| && r[b[k]].id == id;
      assert (a + b)[|a| + k] == b[k];
    }
  }

  lemma {:induction false} AncestrySteps(r: seq<Entry>, i: nat, seen: set<Id>)
    requires i < |r|
    ensures var path := Ancestry(r, i, seen);
            && (forall k :: 0 <= k < |path| - 1 ==> NamedLast(r, path[k], r[path[k + 1]].id))
            && StartsAt(r, path, seen)
    decreases |Ids(r) - seen|
  {
    hide Ids, OnPath;
    var p := Predecessor(r, r[i].id);
    if p < |r| && r[p].id !in seen {
      IdHere(r, p);
      Fewer(Ids(r), seen, r[p].id);
      AncestrySteps(r, p, seen + {r[p].id});
      var up := Ancestry(r, p, seen + {r[p].id});
      var path := Ancestry(r, i, seen);
      assert path == up + [i];
      forall k | 0 <= k < |path| - 1 ensures NamedLast(r, path[k], r[path[k + 1]].id) {
        if k < |up| - 1 { assert NamedLast(r, up[k], r[up[k + 1]].id); } else { assert path[k] == p; }
      }
      LastOnPath(r, up);
      var q := Predecessor(r, r[up[0]].id);
      if q < |r| && r[q].id !in seen { OnLonger(r, up, [i], r[q].id); }
    }
  }

  lemma LastOnPath(r: seq<Entry>, path: seq<nat>)
    requires path != [] && path[|path| - 1] < |r|
    ensures OnPath(r, path, r[path[|path| - 1]].id)
  {
  }

  lemma {:induction false} ForwardEnds(r: seq<Entry>, i: nat, seen: set<Id>)
    requires i < |r| && r[i].id !in seen
    ensures var path := Forward(r, i, seen);
            && path != []
            && var to := r[path[|path| - 1]].supersededBy;
               to.None? || (forall j :: 0 <= j < |r| ==> r[j].id != to.value) || to.value in seen || OnPath(r, path, to.value)
    decreases |Ids(r) - seen|
  {
    hide Ids, OnPath;
    var n := Next(r, i);
    IdHere(r, i);
    Fewer(Ids(r), seen, r[i].id);
    var rest := Forward(r, n, seen + {r[i].id});
    LastOnPath(r, [i]);
    if n < |r| && r[n].id !in seen + {r[i].id} {
      ForwardEnds(r, n, seen + {r[i].id});
      var to := r[rest[|rest| - 1]].supersededBy;
      if to.Some? && (OnPath(r, rest, to.value) || to.value == r[i].id) { OnLonger(r, [i], rest, to.value); }
    } else {
      assert Forward(r, i, seen) == [i];
    }
  }

  /** The chain of any fact, in any registry with unique ids, is exact. */
  lemma ChainIsExact(r: seq<Entry>, i: nat)
    requires UniqueIds(r) && i < |r|
    ensures exists m: nat :: ExactChain(r, ChainAt(r, i), i, m)
  {
    hide OnPath, Linked, Distinct, Ids, Ancestry, Forward, NamedLast;
    var up, chain := Ancestry(r, i, {r[i].id}), ChainAt(r, i);
    var m := |up| - 1;
    ProvenanceIsAChain(r, i);
    AncestrySteps(r, i, {r[i].id});
    ForwardEnds(r, up[0], {});
    assert chain[..m + 1] == up;
    LastOnPath(r, up);
    var p := Predecessor(r, r[chain[0]].id);
    if p < |r| { assert NamedLast(r, p, r[chain[0]].id) by { PredecessorIsLast(r, p, r[chain[0]].id); } }
    assert forall k :: 0 <= k <= m ==> chain[k] == up[k];
    assert ExactChain(r, chain, i, m);
  }

  lemma PredecessorIsLast(r: seq<Entry>, p: nat, id: Id)
    requires p == Predecessor(r, id) < |r|
    ensures NamedLast(r, p, id)
  {
  }

  // ---------------------------------------------------------------- one chain per note

  /** Every link leads to a later entry. */
  predicate Closed(r: seq<Entry>) {
    && UniqueIds(r)
    && (forall i :: 0 <= i < |r| && r[i].supersededBy.Some? ==> ForwardLink(r, i))
  }

  /** Links go strictly forward and no two entries share a replacement. */
  predicate Chained(r: seq<Entry>) {
    && Closed(r)
    && (forall i, j :: 0 <= i < j < |r| && r[i].supersededBy.Some? ==> r[i].supersededBy != r[j].supersededBy)
  }

  predicate ForwardLink(r: seq<Entry>, i: nat)
    requires i < |r|
  {
    exists j :: i < j < |r| && r[i].supersededBy == Some(r[j].id)
  }

  lemma NextIsLater(r: seq<Entry>, i: nat)
    requires Closed(r) && i < |r|
    ensures r[i].supersededBy.Some? ==> i < Next(r, i) < |r|
    ensures r[i].supersededBy.None? ==> Next(r, i) == |r|
  {
    if r[i].supersededBy.Some? {
      assert ForwardLink(r, i);
      var j :| i < j < |r| && r[i].supersededBy == Some(r[j].id);
      var n := Next(r, i);
      assert n < |r|;
      assert n == j;
    }
  }

  lemma OnlyPredecessor(r: seq<Entry>, i: nat, p: nat)
    requires Chained(r) && i < |r| && p < |r| && r[p].supersededBy == Some(r[i].id)
    ensures Predecessor(r, r[i].id) == p && p < i && Next(r, p) == i
  {
    NextIsLater(r, p);
    var n := Next(r, p);
    assert n == i;
    assert Predecessor(r, r[i].id) == p;
  }

  function Root(r: seq<Entry>, i: nat): (root: nat)
    requires Chained(r) && i < |r|
    ensures root <= i
    decreases i
  {
    var p := Predecessor(r, r[i].id);
    if p == |r| then i
    else
      OnlyPredecessor(r, i, p);
      Root(r, p)
  }

  /** Every version from the entry on. */
  function Versions(r: seq<Entry>, i: nat): (path: seq<nat>)
    requires Closed(r) && i <= |r|
    ensures forall k :: 0 <= k < |path| ==> path[k] < |r|
    decreases |r| - i
  {
    if i == |r| then []
    else
      NextIsLater(r, i);
      [i] + Versions(r, Next(r, i))
  }

  /** In such a registry the guards against cycles never fire. */
  lemma {:induction false} AncestryReachesRoot(r: seq<Entry>, i: nat, seen: set<Id>)
    requires Chained(r) && i < |r| && forall x :: 0 <= x < i ==> r[x].id !in seen
    ensures Ancestry(r, i, seen)[0] == Root(r, i)
    decreases i
  {
    var p := Predecessor(r, r[i].id);
    if p < |r| {
      OnlyPredecessor(r, i, p);
      forall x | 0 <= x < p ensures r[x].id !in seen + {r[p].id} { assert r[x].id != r[p].id; }
      AncestryReachesRoot(r, p, seen + {r[p].id});
    }
  }

  lemma {:induction false} ForwardIsVersions(r: seq<Entry>, i: nat, seen: set<Id>)
    requires Closed(r) && i <= |r| && forall x :: i <= x < |r| ==> r[x].id !in seen
    ensures Forward(r, i, seen) == Versions(r, i)
    decreases |r| - i
  {
    if i < |r| {
      NextIsLater(r, i);
      var n := Next(r, i);
      forall x | n <= x < |r| ensures r[x].id !in seen + {r[i].id} { assert r[i].id != r[x].id; }
      ForwardIsVersions(r, n, seen + {r[i].id});
    }
  }

  lemma ChainIsVersions(r: seq<Entry>, i: nat)
    requires Chained(r) && i < |r|
    ensures ChainAt(r, i) == Versions(r, Root(r, i))
  {
    forall x | 0 <= x < i ensures r[x].id !in {r[i].id} { assert r[x].id != r[i].id; }
    AncestryReachesRoot(r, i, {r[i].id});
    ForwardIsVersions(r, Root(r, i), {});
  }

  lemma {:induction false} VersionsEnd(r: seq<Entry>, i: nat)
    requires Closed(r) && i < |r|
    ensures var path := Versions(r, i); path != [] && r[path[|path| - 1]].supersededBy.None?
    decreases |r| - i
  {
    NextIsLater(r, i);
    if r[i].supersededBy.Some? { VersionsEnd(r, Next(r, i)); }
  }

  /** While no link dangles, every answer ends with a version that nothing replaced. */
  lemma ClosedChainIsComplete(r: seq<Entry>, i: nat)
    requires Closed(r) && i < |r|
    ensures var path := ChainAt(r, i); path != [] && r[path[|path| - 1]].supersededBy.None?
  {
    var root := Ancestry(r, i, {r[i].id})[0];
    AncestryShape(r, i, {r[i].id});
    ForwardIsVersions(r, root, {});
    VersionsEnd(r, root);
  }

  /** Every version of a chain has the chain's root. */
  lemma {:induction false} VersionsShareRoot(r: seq<Entry>, i: nat, k: nat)
    requires Chained(r) && i < |r| && k < |Versions(r, i)|
    ensures Root(r, Versions(r, i)[k]) == Root(r, i)
    decreases |r| - i
  {
    if k > 0 {
      NextIsLater(r, i);
      var n := Next(r, i);
      OnlyPredecessor(r, n, i);
      VersionsShareRoot(r, n, k - 1);
    }
  }

  /** Asking from any version of a note returns the same full chain. */
  lemma SameChainFromAnyVersion(r: seq<Entry>, i: nat, k: nat)
    requires Chained(r) && i < |r| && k < |ChainAt(r, i)|
    ensures ChainAt(r, ChainAt(r, i)[k]) == ChainAt(r, i)
    ensures Predecessor(r, r[ChainAt(r, i)[0]].id) == |r|
  {
    ChainIsVersions(r, i);
    var root := Root(r, i);
    RootHasNoPredecessor(r, i);
    VersionsShareRoot(r, root, k);
    ChainIsVersions(r, ChainAt(r, i)[k]);
  }

  lemma {:induction false} RootHasNoPredecessor(r: seq<Entry>, i: nat)
    requires Chained(r) && i < |r|
    ensures Predecessor(r, r[Root(r, i)].id) == |r| && Root(r, Root(r, i)) == Root(r, i)
    decreases i
  {
    var p := Predecessor(r, r[i].id);
    if p < |r| {
      OnlyPredecessor(r, i, p);
      RootHasNoPredecessor(r, p);
    }
  }

  // ---------------------------------------------------------------- after history is dropped

  /** The chain from a version is what is left of the root's chain once the earlier versions are skipped. */
  lemma {:induction false} VersionsSuffix(r: seq<Entry>, i: nat) returns (n: nat)
    requires Chained(r) && i < |r|
    ensures n <= |Versions(r, Root(r, i))| && Versions(r, i) == Versions(r, Root(r, i))[n..]
    decreases i
  {
    var p := Predecessor(r, r[i].id);
    if p == |r| {
      n := 0;
    } else {
      OnlyPredecessor(r, i, p);
      NextIsLater(r, p);
      var m := VersionsSuffix(r, p);
      var whole := Versions(r, Root(r, i));
      assert Versions(r, p) == [p] + Versions(r, i);
      assert whole[m..] == [p] + Versions(r, i);
      n := m + 1;
      assert whole[n..] == whole[m..][1..];
    }
  }

  /** Where an entry of the normalised registry sits in the original one. */
  lemma NormalizedShape(r: seq<Entry>) returns (cut: nat, shift: nat)
    requires UniqueIds(r)
    ensures var r' := Normalize(r);
            && cut <= |r| && |r'| == shift + (|r| - cut)
            && (forall i' :: 0 <= i' < shift ==> Active(r'[i']) && r'[i'] in r)
            && (forall i :: cut <= i < |r| ==> r'[shift + (i - cut)] == r[i])
  {
    NormalizeIsTrim(r);
    cut := TrimShape(r, HISTORY_LIMIT);
    shift := |ActiveOnly(r[..cut])|;
    var r' := Normalize(r);
    forall i' | 0 <= i' < shift ensures Active(r'[i']) && r'[i'] in r {
      assert r'[i'] in ActiveOnly(r[..cut]);
    }
    forall i | cut <= i < |r| ensures r'[shift + (i - cut)] == r[i] {
      assert r'[shift + (i - cut)] == r[cut..][i - cut];
    }
  }

  /** No link that is kept dangles. */
  lemma NormalizedIsClosed(r: seq<Entry>)
    requires Closed(r)
    ensures Closed(Normalize(r))
  {
    hide Normalize;
    var r' := Normalize(r);
    var cut, shift := NormalizedShape(r);
    NormalizeUnique(r);
    forall i' | 0 <= i' < |r'| && r'[i'].supersededBy.Some? ensures ForwardLink(r', i') {
      var i := cut + (i' - shift);
      assert r'[shift + (i - cut)] == r[i];
      assert ForwardLink(r, i);
      var j :| i < j < |r| && r[i].supersededBy == Some(r[j].id);
      assert r'[shift + (j - cut)] == r[j];
    }
  }

  /** Dropping history leaves the registry chained. */
  lemma NormalizedIsChained(r: seq<Entry>)
    requires Chained(r)
    ensures Chained(Normalize(r))
  {
    hide Normalize, Closed;
    var r' := Normalize(r);
    NormalizedIsClosed(r);
    ClosedIsUnique(r);
    var cut, shift := NormalizedShape(r);
    forall i', j' | 0 <= i' < j' < |r'| && r'[i'].supersededBy.Some? ensures r'[i'].supersededBy != r'[j'].supersededBy {
      var i, j := cut + (i' - shift), cut + (j' - shift);
      assert r'[shift + (i - cut)] == r[i] && r'[shift + (j - cut)] == r[j];
      assert r[i].supersededBy != r[j].supersededBy;
    }
  }

  lemma ClosedIsUnique(r: seq<Entry>)
    ensures Closed(r) ==> UniqueIds(r)
    ensures Chained(r) ==> Closed(r)
  {
  }

  /** The entry a chain starts with, and the chain from its replacement. */
  lemma VersionsHead(r: seq<Entry>, i: nat)
    requires Closed(r) && i < |r|
    ensures i < Next(r, i) <= |r| && (r[i].supersededBy.None? ==> Next(r, i) == |r|)
    ensures EntriesAt(r, Versions(r, i)) == [r[i]] + EntriesAt(r, Versions(r, Next(r, i)))
    ensures EntriesAt(r, Versions(r, |r|)) == []
  {
    NextIsLater(r, i);
    hide Closed, Next, EntriesAt;
    EntriesMore(r, i, Versions(r, Next(r, i)));
  }

  lemma EntriesMore(r: seq<Entry>, i: nat, rest: seq<nat>)
    requires i < |r| && forall k :: 0 <= k < |rest| ==> rest[k] < |r|
    ensures EntriesAt(r, [i] + rest) == [r[i]] + EntriesAt(r, rest)
  {
    var es := EntriesAt(r, [i] + rest);
    assert forall k :: 1 <= k < |es| ==> es[k] == r[rest[k - 1]];
  }

  lemma SameId(r: seq<Entry>, i: nat, j: nat)
    requires Closed(r) && i < |r| && j < |r| && r[i].id == r[j].id
    ensures i == j
  {
  }

  /** The replacement of a kept entry is kept. */
  lemma NextKept(r: seq<Entry>, i: nat, i': nat)
    requires Closed(r) && Closed(Normalize(r)) && i < |r| && i' < |Normalize(r)| && r[i] == Normalize(r)[i'] && r[i].supersededBy.Some?
    ensures Next(r, i) < |r| && Next(Normalize(r), i') < |Normalize(r)| && r[Next(r, i)] == Normalize(r)[Next(Normalize(r), i')]
  {
    hide Normalize, Closed;
    var r' := Normalize(r);
    NextIsLater(r, i);
    NextIsLater(r', i');
    NormalizeKeepsActive(r);
    assert r'[Next(r', i')] in r;
    var x :| 0 <= x < |r| && r[x] == r'[Next(r', i')];
    SameId(r, x, Next(r, i));
  }

  /** The chain forward from an entry reads the same in both registries. */
  lemma {:induction false} VersionsAfterNormalize(r: seq<Entry>, i: nat, i': nat)
    requires Closed(r) && Closed(Normalize(r))
    requires i < |r| && i' < |Normalize(r)| && r[i] == Normalize(r)[i']
    ensures EntriesAt(Normalize(r), Versions(Normalize(r), i')) == EntriesAt(r, Versions(r, i))
    decreases |r| - i
  {
    hide Normalize, Closed, EntriesAt, Versions, Next;
    VersionsHead(r, i);
    VersionsHead(Normalize(r), i');
    if r[i].supersededBy.Some? {
      NextKept(r, i, i');
      VersionsAfterNormalize(r, Next(r, i), Next(Normalize(r), i'));
    }
  }

  /** The oldest kept version of a chain is a version of the same chain. */
  lemma {:induction false} RootAfterNormalize(r: seq<Entry>, i: nat, i': nat) returns (q: nat)
    requires Chained(r) && Chained(Normalize(r))
    requires i < |r| && i' < |Normalize(r)| && r[i] == Normalize(r)[i']
    ensures q < |r| && r[q] == Normalize(r)[Root(Normalize(r), i')] && Root(r, q) == Root(r, i)
    decreases i'
  {
    var r' := Normalize(r);
    var p' := Predecessor(r', r'[i'].id);
    if p' == |r'| {
      q := i;
    } else {
      OnlyPredecessor(r', i', p');
      assert r'[p'] in r;
      var p :| 0 <= p < |r| && r[p] == r'[p'];
      OnlyPredecessor(r, i, p);
      q := RootAfterNormalize(r, p, p');
    }
  }

  predicate SuffixOf(part: seq<Entry>, whole: seq<Entry>) {
    exists n :: 0 <= n <= |whole| && part == whole[n..]
  }

  /** After history is dropped, a kept version's answer is a suffix of its old answer. */
  lemma TruncationKeepsASuffix(r: seq<Entry>, i: nat, i': nat)
    requires Chained(r) && i < |r| && i' < |Normalize(r)| && r[i] == Normalize(r)[i']
    ensures Chained(Normalize(r))
    ensures SuffixOf(EntriesAt(Normalize(r), ChainAt(Normalize(r), i')), EntriesAt(r, ChainAt(r, i)))
  {
    hide Normalize, Chained, Versions, Root, ChainAt;
    var r' := Normalize(r);
    NormalizedIsChained(r);
    ClosedIsUnique(r);
    ClosedIsUnique(r');
    ChainIsVersions(r, i);
    ChainIsVersions(r', i');
    var q := RootAfterNormalize(r, i, i');
    VersionsAfterNormalize(r, q, Root(r', i'));
    var n := VersionsSuffix(r, q);
    assert EntriesAt(r, Versions(r, q)) == EntriesAt(r, Versions(r, Root(r, i)))[n..];
  }

  // ---------------------------------------------------------------- the walk itself

  /** The backward loop. */
  method WalkBack(r: seq<Entry>, start: nat) returns (root: nat)
    requires start < |r|
    ensures root == Ancestry(r, start, {r[start].id})[0]
  {
    root := start;
    var seen := {r[start].id};
    var previous: nat := Predecessor(r, r[root].id);
    while previous < |r| && r[previous].id !in seen
      invariant root < |r| && previous == Predecessor(r, r[root].id)
      invariant Ancestry(r, root, seen)[0] == Ancestry(r, start, {r[start].id})[0]
      decreases |Ids(r) - seen|
    {
      assert r[previous] in r;
      Fewer(Ids(r), seen, r[previous].id);
      seen := seen + {r[previous].id};
      root := previous;
      previous := Predecessor(r, r[root].id);
    }
  }

  /** The forward loop. */
  method WalkForward(r: seq<Entry>, root: nat) returns (path: seq<nat>)
    requires root < |r|
    ensures path == Forward(r, root, {})
  {
    var cursor: nat := root;
    path := [];
    var seen: set<Id> := {};
    while cursor < |r| && r[cursor].id !in seen
      invariant cursor <= |r|
      invariant path + Forward(r, cursor, seen) == Forward(r, root, {})
      decreases |Ids(r) - seen|
    {
      assert r[cursor] in r;
      Fewer(Ids(r), seen, r[cursor].id);
      path := path + [cursor];
      seen := seen + {r[cursor].id};
      cursor := Next(r, cursor);
    }
    assert path + [] == path;
  }

  /** `buildFactProvenance`: both walks, each guarded by the ids it has seen. */
  method BuildFactProvenance(r: seq<Entry>, id: Id) returns (answer: Option<Answer>)
    ensures answer == BuildProvenance(r, id)
  {
    var start := FindFact(r, id);
    if start == |r| { return None; }
    var root := WalkBack(r, start);
    var path := WalkForward(r, root);
    answer := Some(Answer(r[start], EntriesAt(r, path)));
  }
}
