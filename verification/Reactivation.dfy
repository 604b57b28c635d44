/**
 * When an entry that left the active set comes back. The carry-over takes concurrent retirements over
 * for the notes facet only (packages/core/src/handoff.ts:160), while making room for a note also
 * retires entries without a facet (packages/core/src/digest/fact-registry.ts:84,381).
 */
module Reactivation {
  import opened Options
  import opened Seqs
  import opened FactRegistry
  import opened RegistryLaws
  import opened RegistryHistory
  import opened DigestWork
  import opened Handoff
  import opened HandoffLaws
  import opened ScopeStore
  import opened ScopeTheorems
  import opened NoteLines
  import opened CapLines
  import opened CapOrder
  import opened CommitLines
  import opened LineRuns

  // ---------------------------------------------------------------- the cap

  /** The cap leaves an entry of another facet alone. */
  lemma {:induction false} CapSparesOthers(env: Env, s: Ledger, now: nat, k: nat)
    requires k < |s.registry| && s.registry[k].facet.Some? && s.registry[k].facet != Some(NOTES)
    ensures var s' := HoldToCap(env, s, now); |s'.registry| == |s.registry| && s'.registry[k] == s.registry[k]
    decreases |Lines(s, NOTES)|
  {
    hide Surplus, EvictNote, Lines, RemoveAt, WithoutEvicted;
    if |Lines(s, NOTES)| > env.pack.cap(NOTES) {
      var j := Surplus(env.lex, s);
      EvictionIs(env.lex, s, j, now);
      OtherFacetStays(env.lex, s.registry, Lines(s, NOTES)[j], now, k);
      CapSparesOthers(env, EvictNote(env.lex, s, j, now), now, k);
    }
  }

  lemma OtherFacetStays(lex: Lexicon, r: seq<Entry>, line: string, now: nat, k: nat)
    requires k < |r| && r[k].facet.Some? && r[k].facet != Some(NOTES)
    ensures WithoutEvicted(lex, r, line, now)[k] == r[k]
  {
  }

  // ---------------------------------------------------------------- the commit

  /** The walk brings an inactive entry of the latest registry back exactly when the copy holds it active and it is no note. */
  lemma WalkReactivatesIff(env: Env, p: Ledger, latest: seq<Entry>, keys: set<Key>, i: nat)
    requires UniqueIds(p.registry) && UniqueIds(latest) && i < |latest| && !Active(latest[i])
    ensures ActiveIn(CarryAll(env, p, latest, keys).registry, latest[i].id)
       <==> (ActiveIn(p.registry, latest[i].id) && latest[i].facet != Some(NOTES))
  {
    hide CarryAll, Settle, Adopted;
    var c := CarryAll(env, p, latest, keys).registry;
    var id := latest[i].id;
    CarriedRegistry(env, p, latest, keys);
    if ActiveIn(c, id) {
      var k :| 0 <= k < |c| && c[k].id == id && Active(c[k]);
      CarriedOrigin(env, p, latest, keys, k);
      if k < |p.registry| {
        if latest[i].facet == Some(NOTES) { SettleRetires(p.registry[k], latest, i); }
      } else {
        OneEntryPerId(latest, i, c[k]);
      }
    }
    if ActiveIn(p.registry, id) && latest[i].facet != Some(NOTES) {
      var k :| 0 <= k < |p.registry| && p.registry[k].id == id && Active(p.registry[k]);
      forall x | 0 <= x < |latest| && latest[x].id == id ensures latest[x].facet != Some(NOTES) {
        OneEntryPerId(latest, i, latest[x]);
      }
      SettleKeeps(p.registry[k], latest);
      assert c[k] == p.registry[k];
    }
  }

  lemma OneEntryPerId(r: seq<Entry>, i: nat, e: Entry)
    requires UniqueIds(r) && i < |r| && e in r && e.id == r[i].id
    ensures e == r[i]
  {
  }

  /** The index of an id. */
  function IndexOf(r: seq<Entry>, id: Id): (k: nat)
    ensures k <= |r| && (k < |r| ==> r[k].id == id) && (k == |r| ==> forall j :: 0 <= j < |r| ==> r[j].id != id)
  {
    First(r, (e: Entry) => e.id == id)
  }

  lemma ActiveAt(r: seq<Entry>, id: Id)
    requires UniqueIds(r)
    ensures ActiveIn(r, id) <==> IndexOf(r, id) < |r| && Active(r[IndexOf(r, id)])
  {
  }

  /** Its copy in the digest is active, and no note whose retirement the commit takes over. */
  predicate HeldOpen(w: World, e: Entry)
    requires w.flight.Some?
  {
    ActiveIn(w.flight.value.state.registry, e.id) && e.facet != Some(NOTES)
  }

  /**
   * The cap of this commit evicts the entry, which has no facet: the line it goes with is among those
   * that leave, in the lines and entries of the two ledgers joined.
   */
  predicate EvictedAnew(env: Env, w: World, now: nat, e: Entry)
    requires w.flight.Some? && w.snapshot.Some?
  {
    var p, s := w.flight.value.state, w.snapshot.value.registry;
    var r := StampAll(env, w.forgotten, now, JoinedEntries(env, p.registry, s, w.forgotten));
    var k := IndexOf(r, e.id);
    && e.facet.None? && k < |r|
    && TurnComes(env.lex, env.pack.cap(NOTES), r, KeptNotes(env, w.forgotten, JoinedLines(env, p, s, w.forgotten)), k)
  }

  /** What the cap is applied to is the two ledgers joined, without what is forgotten. */
  lemma CarriedIs(env: Env, w: World, now: nat)
    requires Sound(env, w) && InOrder(w) && w.flight.Some? && w.snapshot.Some?
    ensures var p, s := w.flight.value.state, w.snapshot.value.registry;
            && Carried(env, w, now).registry == StampAll(env, w.forgotten, now, JoinedEntries(env, p.registry, s, w.forgotten))
            && Lines(Carried(env, w, now), NOTES) == KeptNotes(env, w.forgotten, JoinedLines(env, p, s, w.forgotten))
  {
    hide CarryAll, RetireForgotten, JoinedEntries, JoinedLines, StampAll, KeptNotes, Tracks, LinksTrack, Ordered;
    var p, s := w.flight.value.state, w.snapshot.value.registry;
    assert s[..|s|] == s;
    TrackedTexts(env, w.forgotten, s, p.registry);
    CarriedEntries(env, p, s, w.forgotten);
    CarriedLines(env, p, s, w.forgotten, |s|);
    RetiringIs(env, CarryAll(env, p, s, w.forgotten), w.forgotten, now);
  }

  lemma ForgettingSparesOthers(env: Env, s: Ledger, keys: set<Key>, now: nat, id: Id)
    requires forall k :: 0 <= k < |s.registry| && s.registry[k].id == id ==> s.registry[k].facet != Some(NOTES)
    ensures var s' := RetireForgotten(env, s, keys, now).0;
            && |s'.registry| == |s.registry|
            && forall k :: 0 <= k < |s.registry| ==> s'.registry[k].id == s.registry[k].id && (s.registry[k].id == id ==> s'.registry[k] == s.registry[k])
  {
  }

  /** Growth without new entries keeps every id where it is. */
  lemma SameIndex(r: seq<Entry>, r': seq<Entry>, id: Id)
    requires Grows(r, r', {}) && |r'| == |r|
    ensures IndexOf(r', id) == IndexOf(r, id)
    ensures !ActiveIn(r, id) ==> !ActiveIn(r', id)
  {
    hide First;
    forall k | 0 <= k < |r| ensures r'[k].id == r[k].id && (Active(r'[k]) ==> Active(r[k])) {
      assert Evolves(r[k], r'[k]);
    }
    SameIndexWhenSameIds(r, r', id);
  }

  lemma {:induction false} SameIndexWhenSameIds(r: seq<Entry>, r': seq<Entry>, id: Id)
    requires |r'| == |r| && forall k :: 0 <= k < |r| ==> r'[k].id == r[k].id
    ensures IndexOf(r', id) == IndexOf(r, id)
  {
    if r != [] { SameIndexWhenSameIds(r[1..], r'[1..], id); }
  }

  /** The cap, for an entry the walk brought back. */
  lemma CapReactivates(env: Env, c: Ledger, now: nat, k: nat)
    requires k < |c.registry| && Active(c.registry[k]) && c.registry[k].facet != Some(NOTES)
    ensures var s' := HoldToCap(env, c, now);
            && |s'.registry| == |c.registry|
            && (Active(s'.registry[k]) <==>
                  !(c.registry[k].facet.None? && TurnComes(env.lex, env.pack.cap(NOTES), c.registry, Lines(c, NOTES), k)))
  {
    hide HoldToCap, TurnComes, Lines;
    if c.registry[k].facet.None? { CapTakesIff(env, c, now, k); } else { CapSparesOthers(env, c, now, k); }
  }

  /** Where the entry stands once the walk is done and forgotten notes are out. */
  lemma ReopenedAt(env: Env, w: World, now: nat, i: nat)
    requires Sound(env, w) && w.flight.Some? && w.snapshot.Some?
    requires i < |w.snapshot.value.registry| && !Active(w.snapshot.value.registry[i])
    ensures var e, c := w.snapshot.value.registry[i], Carried(env, w, now).registry;
            var k := IndexOf(c, e.id);
            && UniqueIds(c)
            && (ActiveIn(c, e.id) <==> HeldOpen(w, e))
            && (HeldOpen(w, e) ==> k < |c| && Active(c[k]) && c[k].facet == e.facet)
  {
    hide CarryAll, RetireForgotten, First, LinksTrack;
    var p, s := w.flight.value.state, w.snapshot.value.registry;
    var e := s[i];
    var walked := CarryAll(env, p, s, w.forgotten);
    var c := Carried(env, w, now);
    CarriedUnique(env, p, s, w.forgotten);
    RetireForgottenGrows(env, walked, w.forgotten, now);
    UniqueAfterOne(walked.registry, c.registry, {});
    WalkReactivatesIff(env, p, s, w.forgotten, i);
    SameIndex(walked.registry, c.registry, e.id);
    ActiveAt(c.registry, e.id);
    if HeldOpen(w, e) {
      forall k | 0 <= k < |walked.registry| && walked.registry[k].id == e.id ensures walked.registry[k].facet == e.facet {
        FacetCarried(env, w, i, k);
      }
      ForgettingSparesOthers(env, walked, w.forgotten, now, e.id);
      ActiveAt(walked.registry, e.id);
    }
  }

  lemma FacetCarried(env: Env, w: World, i: nat, k: nat)
    requires Sound(env, w) && w.flight.Some? && w.snapshot.Some? && i < |w.snapshot.value.registry|
    requires var c := CarryAll(env, w.flight.value.state, w.snapshot.value.registry, w.forgotten).registry;
             k < |c| && c[k].id == w.snapshot.value.registry[i].id
    ensures CarryAll(env, w.flight.value.state, w.snapshot.value.registry, w.forgotten).registry[k].facet == w.snapshot.value.registry[i].facet
  {
    hide CarryAll, LinksTrack;
    var p, s := w.flight.value.state.registry, w.snapshot.value.registry;
    var c := CarryAll(env, w.flight.value.state, s, w.forgotten).registry;
    CarriedOrigin(env, w.flight.value.state, s, w.forgotten, k);
    if k < |p| {
      assert TracksAt(env, w.forgotten, s, p, i, k);
    } else {
      OneEntryPerId(s, i, c[k]);
    }
  }

  /** A commit brings an inactive entry back if and only if the copy holds it active, it is no note, and the cap does not evict it anew. */
  lemma CommitReactivatesIff(env: Env, w: World, now: nat, i: nat)
    requires Sound(env, w) && InOrder(w) && w.flight.Some? && w.snapshot.Some?
    requires i < |w.snapshot.value.registry| && !Active(w.snapshot.value.registry[i])
    ensures var e := w.snapshot.value.registry[i];
            ActiveIn(Committed(env, w, w.flight.value.state, now).registry, e.id) <==> (HeldOpen(w, e) && !EvictedAnew(env, w, now, e))
  {
    hide CarryAll, RetireForgotten, HoldToCap, First, Tracks, LinksTrack, TurnComes, Lines, Ordered, StampAll, KeptNotes, JoinedEntries, JoinedLines;
    var e := w.snapshot.value.registry[i];
    var c := Carried(env, w, now);
    CarriedIs(env, w, now);
    var r' := HoldToCap(env, c, now).registry;
    ReopenedAt(env, w, now, i);
    HoldToCapEntries(env, c, now);
    SameIndex(c.registry, r', e.id);
    UniqueAfterOne(c.registry, r', {});
    ActiveAt(r', e.id);
    if HeldOpen(w, e) { CapReactivates(env, c, now, IndexOf(c.registry, e.id)); }
  }

  // ---------------------------------------------------------------- steps and runs

  /** The step is a commit that brings the entry back. */
  predicate Reactivates(env: Env, w: World, step: Step, e: Entry) {
    && step.DigestCommit? && w.flight.Some? && w.snapshot.Some?
    && HeldOpen(w, e) && !EvictedAnew(env, w, step.now, e)
  }

  lemma GrowthBringsNothingBack(r: seq<Entry>, r': seq<Entry>, issued: set<Id>, i: nat)
    requires UniqueIds(r) && Grows(r, r', issued) && Names(r) !! issued && i < |r| && !Active(r[i])
    ensures !ActiveIn(r', r[i].id)
  {
    hide Grows;
    assert r[i] in r && r[i].id in Names(r);
    forall j | 0 <= j < |r| && r[j].id == r[i].id ensures !Active(r[j]) { OneEntryPerId(r, i, r[j]); }
    GoneUnderGrowth(r, r', issued, r[i].id);
  }

  /** From any sound store, a step brings an inactive entry back if and only if it is such a commit. */
  lemma ReactivatesStepIff(env: Env, w: World, step: Step, i: nat)
    requires PackFits(env) && Sound(env, w) && InOrder(w) && Lawful(w, step)
    requires i < |Latest(w).registry| && !Active(Latest(w).registry[i])
    ensures ActiveIn(Latest(Apply(env, w, step)).registry, Latest(w).registry[i].id) <==> Reactivates(env, w, step, Latest(w).registry[i])
  {
    hide Remembered, ForgetIn, CarryOver, Perform, Normalize, Tracks, LinksTrack, EvictedAnew, Grows, Names, Ordered;
    var s := Latest(w).registry;
    match step {
      case Remember(text, stamp) =>
        IdsNamed(s);
        RememberedGrows(env, w, text, stamp);
        GrowthBringsNothingBack(s, Remembered(env, w, text, stamp).registry, {stamp.id}, i);
      case Forget(key, now) =>
        ForgetGrows(env, w, key, now);
        GrowthBringsNothingBack(s, Latest(Effect(env, w, step)).registry, {}, i);
      case DigestCommit(now) =>
        if w.flight.Some? { CommitReactivatesIff(env, w, now, i); } else { StaysOut(s, i); }
      case _ => StaysOut(s, i);
    }
  }

  lemma StaysOut(r: seq<Entry>, i: nat)
    requires UniqueIds(r) && i < |r| && !Active(r[i])
    ensures !ActiveIn(r, r[i].id)
  {
    forall k | 0 <= k < |r| && r[k].id == r[i].id ensures !Active(r[k]) { OneEntryPerId(r, i, r[k]); }
  }

  /** The same of every step of every run. */
  lemma ComesBackIff(env: Env, w: World, steps: seq<Step>, n: nat, i: nat)
    requires PackFits(env) && Start(w) && LawfulRun(env, w, steps) && n < |steps|
    requires var r := Latest(Run(env, w, steps[..n])).registry; i < |r| && !Active(r[i])
    ensures var before, after := Run(env, w, steps[..n]), Run(env, w, steps[..n + 1]);
            ActiveIn(Latest(after).registry, Latest(before).registry[i].id) <==> Reactivates(env, before, steps[n], Latest(before).registry[i])
  {
    hide Reactivates, Apply, Sound, Lawful, InOrder;
    LawfulPrefix(env, w, steps, n);
    OrderRunFromStart(env, w, steps[..n]);
    assert Lawful(Run(env, w, steps[..n]), steps[n]);
    assert steps[..n + 1][..n] == steps[..n];
    ReactivatesStepIff(env, Run(env, w, steps[..n]), steps[n], i);
  }

  // ---------------------------------------------------------------- it can happen

  /** A note written at a full facet, and forgotten: the decision it evicted is all that changed. */
  function Evictor(decision: Entry, note: Stamp, text: string, value: string, stamp: Stamp, later: nat): seq<Entry> {
    [decision.(retired := Some(Retirement(stamp.now, CapEvicted))), NoteEntry(text, note),
     NoteEntry(value, stamp).(retired := Some(Retirement(later, Forgotten)))]
  }

  lemma EvictorWritten(env: Env, decision: Entry, note: Stamp, text: string, line: string, stamp: Stamp)
    requires Active(decision) && decision.facet.None? && decision.content == text
    requires env.pack.cap(NOTES) == 1 && text != "" && env.lex.trim(line) != ""
    requires env.lex.canon(env.lex.trim(line)) != env.lex.canon(text) && !env.lex.isRevision(text, env.lex.trim(line))
    ensures AddNote(env, Shadowed(decision, note, text), line, stamp, {}).state
         == Ledger([decision.(retired := Some(Retirement(stamp.now, CapEvicted))), NoteEntry(text, note), NoteEntry(env.lex.trim(line), stamp)],
                   map[NOTES := [env.lex.trim(line)]])
  {
    hide Shown, EvictionDisplaces, EvictNote, ForgottenPrior, ActiveNoteIndex;
    var s := Shadowed(decision, note, text);
    var value := env.lex.trim(line);
    assert Lines(s, NOTES) == [text];
    ShadowedEviction(env.lex, decision, note, text, stamp.now);
    assert Lines(Held(env, s, value, stamp.now), NOTES) == [value];
    assert AddNote(env, s, line, stamp, {}) == Accumulate(env, s, value, stamp);
    NothingIsPrior(env.lex, s.registry, value);
  }

  lemma EvictorForgotten(env: Env, r: seq<Entry>, value: string, text: string, later: nat)
    requires |r| == 3 && !Active(r[0]) && r[1].content == text && Active(r[2]) && r[2].facet == Some(NOTES) && r[2].content == value
    requires env.pack.group(NOTES).Some?
    requires FactKey(env.lex, env.pack.group(NOTES).value, text) != FactKey(env.lex, env.pack.group(NOTES).value, value)
    ensures var key := FactKey(env.lex, env.pack.group(NOTES).value, value);
            var (s, count) := RetireForgotten(env, Ledger(r, map[NOTES := [value]]), {key}, later);
            count > 0 && s.registry == [r[0], r[1], r[2].(retired := Some(Retirement(later, Forgotten)))]
  {
    var key := FactKey(env.lex, env.pack.group(NOTES).value, value);
    FilterNone([value], t => !NoteForgotten(env, {key}, t));
  }

  /** Nothing the copy does not hold is adopted, and nothing it holds is overtaken. */
  lemma EvictorCarried(env: Env, decision: Entry, note: Stamp, text: string, value: string, stamp: Stamp, later: nat, key: Key)
    requires Active(decision) && decision.facet.None? && decision.id != note.id && stamp.id != decision.id && stamp.id != note.id
    requires NoteForgotten(env, {key}, value)
    ensures CarryAll(env, Shadowed(decision, note, text), Evictor(decision, note, text, value, stamp, later), {key}) == Shadowed(decision, note, text)
  {
    hide NoteForgotten;
    var p := Shadowed(decision, note, text);
    var l := Evictor(decision, note, text, value, stamp, later);
    CarryMore(env, p, l, {key}, 0);
    CarryMore(env, p, l, {key}, 1);
    CarryMore(env, p, l, {key}, 2);
    assert l[..0] == [] && l[..3] == l;
    assert p.registry[..2] == p.registry;
    assert CarryStep(env, p, 2, l[0], {key}) == p;
    assert CarryStep(env, p, 2, l[1], {key}) == p;
    assert CarryStep(env, p, 2, l[2], {key}) == p;
  }

  lemma EvictorCommitted(env: Env, decision: Entry, note: Stamp, text: string, value: string, stamp: Stamp, later: nat, key: Key, now: nat)
    requires Active(decision) && decision.facet.None? && decision.id != note.id && stamp.id != decision.id && stamp.id != note.id
    requires NoteForgotten(env, {key}, value) && !NoteForgotten(env, {key}, text) && env.pack.cap(NOTES) == 1
    ensures var latest := Evictor(decision, note, text, value, stamp, later);
            forall profile :: CarryOver(env, Shadowed(decision, note, text), Ledger(latest, profile), {key}, now).registry
                           == [decision, NoteEntry(text, note)]
  {
    hide NoteForgotten, CarryAll;
    var p := Shadowed(decision, note, text);
    EvictorCarried(env, decision, note, text, value, stamp, later, key);
    var cleaned := RetireForgotten(env, p, {key}, now).0;
    RetiringIs(env, p, {key}, now);
    assert StampAll(env, {key}, now, p.registry) == p.registry;
    assert |Lines(cleaned, NOTES)| <= 1;
    assert HoldToCap(env, cleaned, now) == cleaned;
  }

  /**
   * A decision without a facet, evicted by a note written and then forgotten while a digest ran, is
   * active again once the digest commits.
   */
  lemma DecisionComesBack(env: Env, decision: Entry, note: Stamp, text: string, line: string, stamp: Stamp, later: nat, now: nat)
    requires Active(decision) && decision.facet.None? && decision.content == text
    requires decision.id != note.id && stamp.id != decision.id && stamp.id != note.id
    requires env.pack.cap(NOTES) == 1 && env.pack.group(NOTES).Some? && text != "" && env.lex.trim(line) != ""
    requires env.lex.canon(env.lex.trim(line)) != env.lex.canon(text) && !env.lex.isRevision(text, env.lex.trim(line))
    requires FactKey(env.lex, env.pack.group(NOTES).value, text) != FactKey(env.lex, env.pack.group(NOTES).value, env.lex.trim(line))
    ensures var key := FactKey(env.lex, env.pack.group(NOTES).value, env.lex.trim(line));
            var begun := Apply(env, World(Some(Shadowed(decision, note, text)), {}, None, {decision.id, note.id}), DigestBegin);
            var changed := Apply(env, Apply(env, begun, Remember(line, stamp)), Forget(key, later));
            var after := Apply(env, changed, DigestCommit(now));
            && Latest(changed).registry == Evictor(decision, note, text, env.lex.trim(line), stamp, later)
            && Latest(after).registry == [decision, NoteEntry(text, note)]
  {
    hide AddNote, RetireForgotten, CarryOver, Normalize, Evictor;
    var value := env.lex.trim(line);
    var key := FactKey(env.lex, env.pack.group(NOTES).value, value);
    var s := Shadowed(decision, note, text);
    NormalizeAllActive(s.registry);
    EvictorWritten(env, decision, note, text, line, stamp);
    NoteReports(env, s, line, stamp, {});
    var written := AddNote(env, s, line, stamp, {}).state;
    EvictorForgotten(env, written.registry, value, text, later);
    EvictorIs(decision, note, text, value, stamp, later);
    EvictorCommitted(env, decision, note, text, value, stamp, later, key, now);
    var start := World(Some(s), {}, None, {decision.id, note.id});
    var begun := Apply(env, start, DigestBegin);
    assert begun == start.(flight := Some(Flight({}, s)), issued := start.issued + {});
    var met := Apply(env, begun, Remember(line, stamp));
    assert met == begun.(snapshot := Some(written), issued := begun.issued + {stamp.id}) by { RememberedIs(env, begun, line, stamp); }
    var changed := Apply(env, met, Forget(key, later));
    assert changed.forgotten == {} + {key} == {key};
    assert changed.flight == Some(Flight({}, s));
    assert Latest(changed).registry == Evictor(decision, note, text, value, stamp, later);
  }

  lemma RememberedIs(env: Env, w: World, text: string, stamp: Stamp)
    requires w.snapshot.Some?
    ensures Remembered(env, w, text, stamp) == AddNote(env, w.snapshot.value, text, stamp, w.forgotten).state
  {
    hide AddNote;
    NoteReports(env, w.snapshot.value, text, stamp, w.forgotten);
  }

  lemma EvictorIs(decision: Entry, note: Stamp, text: string, value: string, stamp: Stamp, later: nat)
    ensures Evictor(decision, note, text, value, stamp, later)
         == [decision.(retired := Some(Retirement(stamp.now, CapEvicted))), NoteEntry(text, note),
             NoteEntry(value, stamp).(retired := Some(Retirement(later, Forgotten)))]
  {
  }
}
