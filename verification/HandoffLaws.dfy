/** What a digest commit keeps of the notes that changed while it ran. */
module HandoffLaws {
  import opened Options
  import opened Seqs
  import opened FactRegistry
  import opened RegistryLaws
  import opened RegistryHistory
  import opened Handoff

  // ---------------------------------------------------------------- the carried registry

  predicate Overtakes(mine: Entry, theirs: Entry) {
    theirs.facet == Some(NOTES) && theirs.id == mine.id && !Active(theirs) && Active(mine)
  }

  /** What becomes of one of the pipeline's own entries. */
  function Settle(mine: Entry, latest: seq<Entry>): Entry {
    if latest == [] then mine
    else
      var m := Settle(mine, latest[..|latest| - 1]);
      if Overtakes(m, latest[|latest| - 1]) then TakeOver(m, latest[|latest| - 1]) else m
  }

  predicate Adoptable(env: Env, own: set<Id>, keys: set<Key>, e: Entry) {
    e.facet == Some(NOTES) && e.id !in own && !NoteForgotten(env, keys, e.content)
  }

  function Adopted(env: Env, own: set<Id>, keys: set<Key>, latest: seq<Entry>): seq<Entry> {
    Filter(latest, e => Adoptable(env, own, keys, e))
  }

  lemma AdoptedHas(env: Env, own: set<Id>, keys: set<Key>, latest: seq<Entry>, e: Entry)
    requires e in latest && Adoptable(env, own, keys, e)
    ensures e in Adopted(env, own, keys, latest)
  {
  }

  lemma {:induction false} SettleEvolves(mine: Entry, latest: seq<Entry>)
    ensures Evolves(mine, Settle(mine, latest))
    ensures !Active(mine) ==> Settle(mine, latest) == mine
  {
    if latest != [] {
      SettleEvolves(mine, latest[..|latest| - 1]);
    }
  }

  /** An own entry is left alone when no notes entry of the latest snapshot with its id is inactive. */
  lemma {:induction false} SettleKeeps(mine: Entry, latest: seq<Entry>)
    requires forall i :: 0 <= i < |latest| && latest[i].id == mine.id && latest[i].facet == Some(NOTES) ==> Active(latest[i])
    ensures Settle(mine, latest) == mine
  {
    if latest != [] {
      SettleKeeps(mine, latest[..|latest| - 1]);
    }
  }

  /** An own entry leaves the active set when the latest snapshot holds it inactive. */
  lemma {:induction false} SettleRetires(mine: Entry, latest: seq<Entry>, i: nat)
    requires i < |latest| && latest[i].id == mine.id && latest[i].facet == Some(NOTES) && !Active(latest[i])
    ensures !Active(Settle(mine, latest))
  {
    var n := |latest| - 1;
    if i < n {
      SettleRetires(mine, latest[..n], i);
    }
    SettleEvolves(mine, latest[..n]);
  }

  /** What becomes of an own entry whose id the latest registry holds once. */
  lemma SettleIs(mine: Entry, latest: seq<Entry>, x: nat)
    requires UniqueIds(latest) && x < |latest| && latest[x].id == mine.id
    ensures Settle(mine, latest) == if Overtakes(mine, latest[x]) then TakeOver(mine, latest[x]) else mine
  {
    hide TakeOver;
    var n := |latest| - 1;
    var before := latest[..n];
    if x < n {
      assert before[x] == latest[x];
      SettleIs(mine, before, x);
      SettleEvolves(mine, before);
    } else {
      forall i | 0 <= i < n ensures before[i].id != mine.id { assert latest[i].id != latest[n].id; }
      SettleKeeps(mine, before);
    }
  }

  lemma SettleAlone(mine: Entry, latest: seq<Entry>)
    requires forall x :: 0 <= x < |latest| ==> latest[x].id != mine.id
    ensures Settle(mine, latest) == mine
  {
    SettleKeeps(mine, latest);
  }

  /** The carried registry is the pipeline's own entries, settled, followed by the ones it never saw, in order. */
  lemma {:induction false} CarriedRegistry(env: Env, p: Ledger, latest: seq<Entry>, keys: set<Key>)
    requires UniqueIds(p.registry)
    ensures var c := CarryAll(env, p, latest, keys).registry;
            && |c| == |p.registry| + |Adopted(env, Ids(p.registry), keys, latest)|
            && (forall j :: 0 <= j < |p.registry| ==> c[j] == Settle(p.registry[j], latest))
            && c[|p.registry|..] == Adopted(env, Ids(p.registry), keys, latest)
  {
    if latest != [] {
      var n := |latest| - 1;
      CarriedRegistry(env, p, latest[..n], keys);
      var s := CarryAll(env, p, latest[..n], keys);
      CarryStepRegistry(env, p, s, latest, keys);
    }
  }

  lemma CarryStepRegistry(env: Env, p: Ledger, s: Ledger, latest: seq<Entry>, keys: set<Key>)
    requires latest != [] && UniqueIds(p.registry)
    requires var before := latest[..|latest| - 1];
             && |s.registry| == |p.registry| + |Adopted(env, Ids(p.registry), keys, before)|
             && (forall j :: 0 <= j < |p.registry| ==> s.registry[j] == Settle(p.registry[j], before))
             && s.registry[|p.registry|..] == Adopted(env, Ids(p.registry), keys, before)
    ensures var c := CarryStep(env, s, |p.registry|, latest[|latest| - 1], keys).registry;
            && |c| == |p.registry| + |Adopted(env, Ids(p.registry), keys, latest)|
            && (forall j :: 0 <= j < |p.registry| ==> c[j] == Settle(p.registry[j], latest))
            && c[|p.registry|..] == Adopted(env, Ids(p.registry), keys, latest)
  {
    hide WithoutLine, Ids, Adopted, NoteForgotten;
    var own := |p.registry|;
    var n := |latest| - 1;
    var theirs, before := latest[n], latest[..n];
    SettledLookup(p.registry, before, s.registry[..own], theirs.id);
    AdoptedMore(env, Ids(p.registry), keys, latest);
    var i := ById(s.registry[..own], theirs.id);
    var c := CarryStep(env, s, own, theirs, keys).registry;
    forall j | 0 <= j < own ensures c[j] == Settle(p.registry[j], latest) {
      SettleEvolves(p.registry[j], before);
    }
    if Adoptable(env, Ids(p.registry), keys, theirs) {
      assert c == s.registry + [theirs];
      assert c[own..] == s.registry[own..] + [theirs];
    } else {
      assert |c| == |s.registry|;
      assert c[own..] == s.registry[own..];
    }
  }

  lemma AdoptedMore(env: Env, own: set<Id>, keys: set<Key>, latest: seq<Entry>)
    requires latest != []
    ensures var n := |latest| - 1;
            Adopted(env, own, keys, latest) == Adopted(env, own, keys, latest[..n]) + if Adoptable(env, own, keys, latest[n]) then [latest[n]] else []
  {
  }

  /** Where the walk finds an id among the settled entries. */
  lemma SettledLookup(p: seq<Entry>, before: seq<Entry>, r: seq<Entry>, id: Id)
    requires UniqueIds(p) && |r| == |p| && forall j :: 0 <= j < |p| ==> r[j] == Settle(p[j], before)
    ensures var i := ById(r, id);
            && (i < |p| <==> id in Ids(p))
            && (forall j :: 0 <= j < |p| && j != i ==> p[j].id != id)
            && (i < |p| ==> p[i].id == id)
  {
    forall j | 0 <= j < |p| ensures r[j].id == p[j].id && p[j].id in Ids(p) {
      SettleEvolves(p[j], before);
      assert p[j] in p;
    }
  }

  /** A settled entry's link is its own, or one the latest snapshot holds for the same id. */
  lemma {:induction false} SettleLink(mine: Entry, latest: seq<Entry>)
    ensures var m := Settle(mine, latest);
            m.supersededBy == mine.supersededBy || LinkIn(latest, mine.id, m.supersededBy)
  {
    if latest != [] {
      var n := |latest| - 1;
      SettleLink(mine, latest[..n]);
      SettleEvolves(mine, latest[..n]);
      var m := Settle(mine, latest[..n]);
      if m.supersededBy != mine.supersededBy {
        var i :| 0 <= i < n && latest[..n][i].id == mine.id && latest[..n][i].supersededBy == m.supersededBy;
        assert latest[i] == latest[..n][i];
      }
    }
  }

  predicate LinkIn(r: seq<Entry>, id: Id, to: Option<Id>) {
    exists i :: 0 <= i < |r| && r[i].id == id && r[i].supersededBy == to
  }

  /** Every link of the digest's copy to an entry of the latest registry is a link of that registry too. */
  predicate LinksTrack(s: seq<Entry>, p: seq<Entry>) {
    forall j :: 0 <= j < |p| && p[j].supersededBy.Some? && p[j].supersededBy.value in Ids(s) ==> LinkIn(s, p[j].id, p[j].supersededBy)
  }

  /** Where an entry of the carried registry comes from. */
  lemma CarriedOrigin(env: Env, p: Ledger, latest: seq<Entry>, keys: set<Key>, k: nat)
    requires UniqueIds(p.registry) && k < |CarryAll(env, p, latest, keys).registry|
    ensures var e := CarryAll(env, p, latest, keys).registry[k];
            && (k < |p.registry| ==> Evolves(p.registry[k], e) && (e.supersededBy == p.registry[k].supersededBy || LinkIn(latest, e.id, e.supersededBy)))
            && (k >= |p.registry| ==> e in latest && e.id !in Ids(p.registry))
  {
    var c := CarryAll(env, p, latest, keys).registry;
    CarriedRegistry(env, p, latest, keys);
    if k < |p.registry| {
      SettleEvolves(p.registry[k], latest);
      SettleLink(p.registry[k], latest);
    } else {
      assert c[k] == c[|p.registry|..][k - |p.registry|];
      assert c[k] in Adopted(env, Ids(p.registry), keys, latest);
    }
  }

  /** A caller's note of the latest snapshot is still one in the carried registry. */
  lemma CallerAfterCarry(env: Env, p: Ledger, latest: seq<Entry>, keys: set<Key>, e: Entry)
    requires UniqueIds(p.registry) && UniqueIds(latest) && LinksTrack(latest, p.registry)
    requires e in latest && IsCallerNote(e, latest)
    ensures IsCallerNote(e, CarryAll(env, p, latest, keys).registry)
  {
    var c := CarryAll(env, p, latest, keys).registry;
    forall x | x in PointerIds(c, e.id) ensures x in PointerIds(latest, e.id) {
      var k :| 0 <= k < |c| && c[k].id == x && c[k].supersededBy == Some(e.id);
      CarriedOrigin(env, p, latest, keys, k);
      assert e.id in Ids(latest);
      if k < |p.registry| {
        assert LinkIn(latest, x, Some(e.id));
        var i :| 0 <= i < |latest| && latest[i].id == x && latest[i].supersededBy == Some(e.id);
        assert latest[i] in latest;
      }
    }
    CarriedUnique(env, p, latest, keys);
    PointersCounted(c, e.id);
    PointersCounted(latest, e.id);
    SubsetSize(PointerIds(c, e.id), PointerIds(latest, e.id));
  }

  lemma CarriedNames(env: Env, p: Ledger, latest: seq<Entry>, keys: set<Key>)
    requires UniqueIds(p.registry)
    ensures Names(CarryAll(env, p, latest, keys).registry) <= Names(p.registry) + Names(latest)
  {
    hide CarryAll, Evolves;
    var c := CarryAll(env, p, latest, keys).registry;
    forall x | x in Names(c) ensures x in Names(p.registry) + Names(latest) {
      var k :| 0 <= k < |c| && (c[k].id == x || c[k].supersededBy == Some(x));
      CarriedName(env, p, latest, keys, k, x);
    }
  }

  lemma CarriedName(env: Env, p: Ledger, latest: seq<Entry>, keys: set<Key>, k: nat, x: Id)
    requires UniqueIds(p.registry) && k < |CarryAll(env, p, latest, keys).registry|
    requires var e := CarryAll(env, p, latest, keys).registry[k]; e.id == x || e.supersededBy == Some(x)
    ensures x in Names(p.registry) + Names(latest)
  {
    hide CarryAll;
    CarriedOrigin(env, p, latest, keys, k);
    if k < |p.registry| { assert p.registry[k] in p.registry; }
  }

  lemma CarriedUnique(env: Env, p: Ledger, latest: seq<Entry>, keys: set<Key>)
    requires UniqueIds(p.registry) && UniqueIds(latest)
    ensures UniqueIds(CarryAll(env, p, latest, keys).registry)
    ensures Names(CarryAll(env, p, latest, keys).registry) <= Names(p.registry) + Names(latest)
  {
    CarriedNames(env, p, latest, keys);
    hide CarryAll, Names, Adopted;
    var c := CarryAll(env, p, latest, keys).registry;
    var own := |p.registry|;
    CarriedRegistry(env, p, latest, keys);
    AdoptedUnique(env, Ids(p.registry), keys, latest);
    forall j | 0 <= j < own ensures c[j].id == p.registry[j].id {
      SettleEvolves(p.registry[j], latest);
    }
    UniqueExtension(p.registry, c);
  }

  lemma AdoptedUnique(env: Env, own: set<Id>, keys: set<Key>, latest: seq<Entry>)
    requires UniqueIds(latest)
    ensures UniqueIds(Adopted(env, own, keys, latest))
    ensures forall e :: e in Adopted(env, own, keys, latest) ==> e.id !in own
  {
    FilterUnique(latest, e => Adoptable(env, own, keys, e));
  }

  /** Entries with the ids of `r`, then others with ids of their own. */
  lemma UniqueExtension(r: seq<Entry>, c: seq<Entry>)
    requires UniqueIds(r) && |r| <= |c| && UniqueIds(c[|r|..])
    requires forall j :: 0 <= j < |r| ==> c[j].id == r[j].id
    requires forall e :: e in c[|r|..] ==> e.id !in Ids(r)
    ensures UniqueIds(c)
  {
    var b := c[|r|..];
    forall i, j | 0 <= i < j < |c| ensures c[i].id != c[j].id {
      if i >= |r| {
        assert b[i - |r|].id != b[j - |r|].id;
      } else if j >= |r| {
        assert b[j - |r|] in b && r[i] in r;
      }
    }
  }

  // ---------------------------------------------------------------- the cap

  /** The entry at `k` is unchanged, or was active and left as evicted by the cap. */
  predicate KeptOrEvicted(r: seq<Entry>, r': seq<Entry>, k: nat, now: nat)
    requires k < |r|
  {
    && k < |r'|
    && (r'[k] == r[k] || (Active(r[k]) && r'[k] == r[k].(retired := Some(Retirement(now, CapEvicted)))))
  }

  lemma {:induction false} HoldToCapEntries(env: Env, s: Ledger, now: nat)
    ensures var r' := HoldToCap(env, s, now).registry;
            && |r'| == |s.registry|
            && Grows(s.registry, r', {})
            && forall k :: 0 <= k < |s.registry| ==> KeptOrEvicted(s.registry, r', k, now)
    decreases |Lines(s, NOTES)|
  {
    if |Lines(s, NOTES)| > env.pack.cap(NOTES) {
      var s1 := EvictNote(env.lex, s, Surplus(env.lex, s), now);
      HoldToCapEntries(env, s1, now);
      var r' := HoldToCap(env, s1, now).registry;
      forall k | 0 <= k < |s.registry| ensures KeptOrEvicted(s.registry, r', k, now) {
        assert KeptOrEvicted(s.registry, s1.registry, k, now);
        assert KeptOrEvicted(s1.registry, r', k, now);
      }
    }
  }

  function NotesOfCallers(lex: Lexicon, s: Ledger): seq<string> {
    CallerLines(lex, s.registry, NOTES, Lines(s, NOTES))
  }

  /** Whether a text is a caller's note can only stop being so when a line is evicted. */
  lemma EvictionBacksNoMore(lex: Lexicon, s: Ledger, i: nat, now: nat)
    requires i < |Lines(s, NOTES)|
    ensures |NotesOfCallers(lex, EvictNote(lex, s, i, now))| <= |NotesOfCallers(lex, s)|
  {
    var s1 := EvictNote(lex, s, i, now);
    var lines := Lines(s, NOTES);
    assert Grows(s.registry, s1.registry, {});
    forall t | IsCallerNoteText(lex, s1.registry, NOTES, t) ensures IsCallerNoteText(lex, s.registry, NOTES, t) {
      var k :| 0 <= k < |s1.registry| && BackedByCaller(lex, s1.registry, NOTES, t, k);
      CallerStable(s.registry, s1.registry, {}, s.registry[k]);
      assert BackedByCaller(lex, s.registry, NOTES, t, k);
    }
    FilterStricter(RemoveAt(lines, i), t => IsCallerNoteText(lex, s.registry, NOTES, t), t => IsCallerNoteText(lex, s1.registry, NOTES, t));
    FilterRemoveAt(lines, i, t => IsCallerNoteText(lex, s.registry, NOTES, t));
  }

  /** Evicting a line no caller's note backs leaves every caller's note active. */
  lemma DigestLineSparesNotes(lex: Lexicon, s: Ledger, i: nat, now: nat, k: nat)
    requires HeldNote(s.registry, k)
    requires i < |Lines(s, NOTES)| && !IsCallerNoteText(lex, s.registry, NOTES, Lines(s, NOTES)[i])
    ensures var r' := EvictNote(lex, s, i, now).registry;
            |r'| == |s.registry| && r'[k] == s.registry[k] && HeldNote(r', k)
  {
    var s1 := EvictNote(lex, s, i, now);
    var line := Lines(s, NOTES)[i];
    assert !BackedByCaller(lex, s.registry, NOTES, line, k);
    assert s1.registry[k] == s.registry[k];
    assert Grows(s.registry, s1.registry, {});
    CallerStable(s.registry, s1.registry, {}, s.registry[k]);
  }

  /** The cap reaches a caller's note only when caller notes alone overflow it. */
  lemma {:induction false} CrowdedOut(env: Env, s: Ledger, now: nat, k: nat)
    requires HeldNote(s.registry, k)
    ensures var r' := HoldToCap(env, s, now).registry;
            && |r'| == |s.registry|
            && (r'[k] == s.registry[k] || |NotesOfCallers(env.lex, s)| > env.pack.cap(NOTES))
    decreases |Lines(s, NOTES)|
  {
    var lines := Lines(s, NOTES);
    HoldToCapEntries(env, s, now);
    if |lines| > env.pack.cap(NOTES) {
      var i := Surplus(env.lex, s);
      var s1 := EvictNote(env.lex, s, i, now);
      if IsCallerNoteText(env.lex, s.registry, NOTES, lines[i]) {
        FilterAll(lines, t => IsCallerNoteText(env.lex, s.registry, NOTES, t));
        assert NotesOfCallers(env.lex, s) == lines;
      } else {
        DigestLineSparesNotes(env.lex, s, i, now, k);
        CrowdedOut(env, s1, now, k);
        EvictionBacksNoMore(env.lex, s, i, now);
      }
    }
  }

  /** The commit as a whole: the carried registry, with nothing but statuses written since. */
  lemma CarryOverGrows(env: Env, p: Ledger, latest: Ledger, keys: set<Key>, now: nat)
    ensures var r := CarryAll(env, p, latest.registry, keys).registry;
            var r' := CarryOver(env, p, latest, keys, now).registry;
            Grows(r, r', {}) && |r'| == |r|
  {
    var c := CarryAll(env, p, latest.registry, keys);
    var cleaned := RetireForgotten(env, c, keys, now).0;
    RetireForgottenGrows(env, c, keys, now);
    HoldToCapEntries(env, cleaned, now);
    GrowsTwice(c.registry, cleaned.registry, HoldToCap(env, cleaned, now).registry, {}, {});
  }

  lemma CarryOverUnique(env: Env, p: Ledger, latest: Ledger, keys: set<Key>, now: nat)
    requires UniqueIds(p.registry) && UniqueIds(latest.registry)
    ensures UniqueIds(CarryOver(env, p, latest, keys, now).registry)
    ensures Names(CarryOver(env, p, latest, keys, now).registry) <= Names(p.registry) + Names(latest.registry)
  {
    var r := CarryAll(env, p, latest.registry, keys).registry;
    var r' := CarryOver(env, p, latest, keys, now).registry;
    CarriedUnique(env, p, latest.registry, keys);
    CarryOverGrows(env, p, latest, keys, now);
    UniqueAfterOne(r, r', {});
    NamesAfterGrowth(r, r', {});
  }
}
