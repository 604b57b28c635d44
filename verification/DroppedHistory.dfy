/**
 * What a commit takes for a concurrent write. The carry-over adopts every notes entry of the latest
 * registry whose id the digest does not hold (packages/core/src/handoff.ts:117-130); the digest
 * started from a copy without the history beyond 500 entries (packages/core/src/digest/state.ts:189-200),
 * or, in a full rebuild, from no copy at all (apps/worker/src/main.ts:464-523).
 */
module DroppedHistory {
  import opened Options
  import opened Seqs
  import opened FactRegistry
  import opened RegistryLaws
  import opened RegistryHistory
  import opened DigestWork
  import opened Handoff
  import opened HandoffLaws
  import opened ScopeStore

  /** A note of `r` is missing from what the digest holds only if it is forgotten. */
  predicate MissesOnlyForgotten(env: Env, own: set<Id>, keys: set<Key>, r: seq<Entry>) {
    forall i :: 0 <= i < |r| && r[i].facet == Some(NOTES) && r[i].id !in own ==> NoteForgotten(env, keys, r[i].content)
  }

  /** What is adopted was written since the digest read `r`. */
  predicate AdoptsOnlyNews(env: Env, own: set<Id>, keys: set<Key>, r: seq<Entry>, latest: seq<Entry>) {
    forall e :: e in Adopted(env, own, keys, latest) ==> e.id !in Ids(r)
  }

  /**
   * An id in the latest registry and not in the digest's is a concurrent write, for every entry
   * the commit adopts, if and only if the digest misses no note that is not forgotten.
   */
  lemma AdoptsOnlyNewsIff(env: Env, own: set<Id>, keys: set<Key>, r: seq<Entry>, latest: seq<Entry>, issued: set<Id>)
    requires UniqueIds(r) && Grows(r, latest, issued) && Ids(r) !! issued
    ensures AdoptsOnlyNews(env, own, keys, r, latest) <==> MissesOnlyForgotten(env, own, keys, r)
  {
    hide Grows;
    forall i | 0 <= i < |r| && r[i].facet == Some(NOTES) && r[i].id !in own && !NoteForgotten(env, keys, r[i].content)
      ensures !AdoptsOnlyNews(env, own, keys, r, latest)
    {
      EntryEvolves(r, latest, issued, i);
      AdoptedHas(env, own, keys, latest, latest[i]);
      assert r[i] in r;
    }
    forall e | MissesOnlyForgotten(env, own, keys, r) && e in Adopted(env, own, keys, latest) ensures e.id !in Ids(r) {
      var i :| 0 <= i < |latest| && latest[i] == e;
      if i < |r| { EntryEvolves(r, latest, issued, i); } else { NewEntryIds(r, latest, issued, i); }
    }
  }

  lemma EntryEvolves(r: seq<Entry>, r': seq<Entry>, issued: set<Id>, i: nat)
    requires Grows(r, r', issued) && i < |r|
    ensures i < |r'| && SameStatement(r[i], r'[i])
  {
    assert Evolves(r[i], r'[i]);
  }

  lemma NewEntryIds(r: seq<Entry>, r': seq<Entry>, issued: set<Id>, i: nat)
    requires Grows(r, r', issued) && |r| <= i < |r'|
    ensures r'[i].id in issued
  {
  }

  // ---------------------------------------------------------------- while a digest works

  predicate Working(steps: seq<Step>) {
    forall n :: 0 <= n < |steps| ==> steps[n].Remember? || steps[n].Forget? || steps[n].DigestStep?
  }

  /** A step that starts a digest or a rebuild. */
  predicate Begins(step: Step) {
    step.DigestBegin? || step.RebuildBegin?
  }

  /** The entries it starts with. */
  function StartCopy(r: seq<Entry>, begin: Step): seq<Entry> {
    if begin.RebuildBegin? && begin.full then [] else Normalize(r)
  }

  /** What a world has kept of the registry `r` a digest read and of the ids `had` it started with, when `before` ids were issued. */
  ghost predicate Since(r: seq<Entry>, before: set<Id>, had: set<Id>, w: World) {
    && w.flight.Some? && before <= w.issued
    && Grows(r, Latest(w).registry, w.issued - before)
    && Ids(w.flight.value.state.registry) * Ids(r) == had * Ids(r)
  }

  lemma IssuedMore(r: seq<Entry>, r': seq<Entry>, a: set<Id>, b: set<Id>)
    requires Grows(r, r', a) && a <= b
    ensures Grows(r, r', b)
  {
  }

  lemma SinceStep(env: Env, r: seq<Entry>, before: set<Id>, had: set<Id>, w: World, step: Step)
    requires PackFits(env) && Sound(env, w) && Lawful(w, step) && Since(r, before, had, w) && Ids(r) <= before
    requires Working([step])
    ensures Since(r, before, had, Apply(env, w, step))
  {
    hide AddNote, RetireForgotten, Perform, Normalize, Tracks, LinksTrack, Names;
    assert Working([step]) && [step][0] == step;
    var s := Latest(w).registry;
    var w' := Apply(env, w, step);
    var s' := Latest(w').registry;
    match step {
      case Remember(text, stamp) =>
        assert Ids(s) <= Names(s) by { IdsNamed(s); }
        RememberedGrows(env, w, text, stamp);
        SinceGrows(r, s, s', w.issued - before, {stamp.id}, w'.issued - before);
      case Forget(key, now) =>
        ForgetGrows(env, w, key, now);
        SinceGrows(r, s, s', w.issued - before, {}, w'.issued - before);
      case DigestStep(work) =>
        var f := w.flight.value;
        WorkGrows(env, f.keys, f.state, work);
        SharedIds(f.state.registry, Perform(env, f.keys, f.state, work).registry, WorkIds(work), Ids(r));
        IssuedMore(r, s, w.issued - before, w'.issued - before);
      case _ =>
    }
  }

  lemma SinceGrows(r: seq<Entry>, s: seq<Entry>, s': seq<Entry>, a: set<Id>, b: set<Id>, all: set<Id>)
    requires Grows(r, s, a) && Grows(s, s', b) && a + b <= all
    ensures Grows(r, s', all)
  {
    GrowsTwice(r, s, s', a, b);
    IssuedMore(r, s', a + b, all);
  }

  /** New ids leave the ids shared with an older registry as they were. */
  lemma SharedIds(p: seq<Entry>, p': seq<Entry>, issued: set<Id>, ids: set<Id>)
    requires Grows(p, p', issued) && ids !! issued
    ensures Ids(p') * ids == Ids(p) * ids
  {
    IdsAfterGrowth(p, p', issued);
    forall x | x in Ids(p) ensures x in Ids(p') {
      var i :| 0 <= i < |p| && p[i].id == x;
      EntryEvolves(p, p', issued, i);
      assert p'[i] in p';
    }
  }

  lemma {:induction false} SinceRun(env: Env, r: seq<Entry>, before: set<Id>, had: set<Id>, w: World, steps: seq<Step>)
    requires PackFits(env) && Sound(env, w) && LawfulRun(env, w, steps) && Working(steps)
    requires Since(r, before, had, w) && Ids(r) <= before
    ensures Since(r, before, had, Run(env, w, steps))
  {
    hide Since, Sound, Lawful, Apply;
    if steps != [] {
      var n := |steps| - 1;
      LawfulPrefix(env, w, steps, n);
      assert Working(steps[..n]) by { assert forall k :: 0 <= k < n ==> steps[..n][k] == steps[k]; }
      SinceRun(env, r, before, had, w, steps[..n]);
      SoundRun(env, w, steps[..n]);
      assert Lawful(Run(env, w, steps[..n]), steps[n]);
      SinceStep(env, r, before, had, Run(env, w, steps[..n]), steps[n]);
    }
  }

  lemma SinceBegin(env: Env, w: World, begin: Step)
    requires Sound(env, w) && w.flight.None? && Begins(begin)
    ensures var r := Latest(w).registry;
            Since(r, w.issued, Ids(StartCopy(r, begin)), Apply(env, w, begin)) && Ids(r) <= w.issued
  {
    hide Normalize;
    IdsNamed(Latest(w).registry);
    SameGrows(Latest(w).registry, {});
  }

  /** Missing a note of `r` is a matter of the ids of `r` alone. */
  lemma SharedMisses(env: Env, own: set<Id>, had: set<Id>, keys: set<Key>, r: seq<Entry>)
    requires own * Ids(r) == had * Ids(r)
    ensures MissesOnlyForgotten(env, own, keys, r) <==> MissesOnlyForgotten(env, had, keys, r)
  {
    hide NoteForgotten;
    forall i | 0 <= i < |r| ensures r[i].id in own <==> r[i].id in had {
      assert r[i] in r && r[i].id in Ids(r);
      assert r[i].id in own <==> r[i].id in own * Ids(r);
      assert r[i].id in had <==> r[i].id in had * Ids(r);
    }
  }

  /**
   * In every run from the start of a digest or a rebuild to its commit: the commit adopts only what
   * was written in between, if and only if the start left out no note but forgotten ones.
   */
  lemma CommitAdoptsOnlyNewsIff(env: Env, w: World, begin: Step, steps: seq<Step>)
    requires PackFits(env) && Sound(env, w) && w.flight.None? && Begins(begin) && Working(steps)
    requires LawfulRun(env, Apply(env, w, begin), steps)
    ensures var w' := Run(env, Apply(env, w, begin), steps);
            && w'.flight.Some?
            && (AdoptsOnlyNews(env, Ids(w'.flight.value.state.registry), w'.forgotten, Latest(w).registry, Latest(w').registry)
                <==> MissesOnlyForgotten(env, Ids(StartCopy(Latest(w).registry, begin)), w'.forgotten, Latest(w).registry))
  {
    hide AdoptsOnlyNews, MissesOnlyForgotten, Apply, Run, StartCopy;
    var r := Latest(w).registry;
    var begun := Apply(env, w, begin);
    var w' := Run(env, begun, steps);
    SinceBegin(env, w, begin);
    SoundBegins(env, w, begin);
    SinceRun(env, r, w.issued, Ids(StartCopy(r, begin)), begun, steps);
    AdoptsOnlyNewsIff(env, Ids(w'.flight.value.state.registry), w'.forgotten, r, Latest(w').registry, w'.issued - w.issued);
    SharedMisses(env, Ids(w'.flight.value.state.registry), Ids(StartCopy(r, begin)), w'.forgotten, r);
  }

  lemma SoundBegins(env: Env, w: World, begin: Step)
    requires PackFits(env) && Sound(env, w) && Begins(begin)
    ensures Sound(env, Apply(env, w, begin))
  {
    hide Sound, Apply;
    SoundStep(env, w, begin);
  }

  // ---------------------------------------------------------------- what each start leaves out

  /** An inactive note too old for the copy a digest starts from. */
  predicate DroppedNote(r: seq<Entry>, i: nat) {
    i < |r| && !Active(r[i]) && r[i].facet == Some(NOTES) && r[i] !in LastN(History(r), HISTORY_LIMIT)
  }

  /** Every dropped note is a forgotten one. */
  predicate DropsOnlyForgotten(env: Env, keys: set<Key>, r: seq<Entry>) {
    forall i :: 0 <= i < |r| && DroppedNote(r, i) ==> NoteForgotten(env, keys, r[i].content)
  }

  lemma CopiedIds(r: seq<Entry>, i: nat)
    requires UniqueIds(r) && i < |r|
    ensures r[i].id in Ids(Normalize(r)) <==> Active(r[i]) || r[i] in LastN(History(r), HISTORY_LIMIT)
  {
    var p := Normalize(r);
    if r[i].id in Ids(p) {
      var e :| e in p && e.id == r[i].id;
      var k :| 0 <= k < |r| && r[k] == e;
      assert k == i;
    } else {
      assert r[i] !in p;
    }
  }

  /** A copy of the snapshot leaves out the notes beyond the history it keeps; an empty one leaves out all of them. */
  lemma StartMisses(env: Env, begin: Step, keys: set<Key>, r: seq<Entry>)
    requires UniqueIds(r)
    ensures MissesOnlyForgotten(env, Ids(StartCopy(r, begin)), keys, r) <==>
      if begin.RebuildBegin? && begin.full
      then forall i :: 0 <= i < |r| && r[i].facet == Some(NOTES) ==> NoteForgotten(env, keys, r[i].content)
      else DropsOnlyForgotten(env, keys, r)
  {
    hide Normalize, History, LastN, NoteForgotten;
    if !(begin.RebuildBegin? && begin.full) {
      forall i | 0 <= i < |r| && r[i].facet == Some(NOTES) ensures r[i].id !in Ids(Normalize(r)) <==> DroppedNote(r, i) {
        CopiedIds(r, i);
      }
    }
  }

  /** With nothing in between there is no news, so a commit adopts nothing exactly then. */
  lemma IdleCommitAdoptsNothingIff(env: Env, w: World)
    requires PackFits(env) && Sound(env, w) && w.flight.None?
    ensures var r := Latest(w).registry;
            Adopted(env, Ids(Normalize(r)), w.forgotten, r) == [] <==> DropsOnlyForgotten(env, w.forgotten, r)
  {
    hide Normalize, MissesOnlyForgotten, DropsOnlyForgotten, Tracks, LinksTrack;
    var r := Latest(w).registry;
    SameGrows(r, {});
    AdoptsOnlyNewsIff(env, Ids(Normalize(r)), w.forgotten, r, r, {});
    StartMisses(env, DigestBegin, w.forgotten, r);
    var extra := Adopted(env, Ids(Normalize(r)), w.forgotten, r);
    if extra != [] { assert extra[0] in extra && extra[0] in r; }
  }

  // ---------------------------------------------------------------- a note that returns

  /** Every dropped note that is not forgotten comes back at the end of what an idle digest commits. */
  lemma DroppedNotesReturn(env: Env, s: Ledger, keys: set<Key>, now: nat, i: nat)
    requires UniqueIds(s.registry) && DroppedNote(s.registry, i) && !NoteForgotten(env, keys, s.registry[i].content)
    ensures var r, p := s.registry, NormalizeLedger(s);
            var r' := CarryOver(env, p, s, keys, now).registry;
            r[i] !in p.registry && |p.registry| <= |r'| && r[i] in r'[|p.registry|..]
  {
    hide CarryAll, CarryOver, Normalize, History, HoldToCap, Adopted;
    var r, p := s.registry, NormalizeLedger(s);
    NormalizeUnique(r);
    CarriedRegistry(env, p, r, keys);
    CopiedIds(r, i);
    assert r[i] in r && r[i] !in p.registry;
    AdoptedHas(env, Ids(p.registry), keys, r, r[i]);
    var c := CarryAll(env, p, r, keys);
    var x :| 0 <= x < |c.registry[|p.registry|..]| && c.registry[|p.registry|..][x] == r[i];
    InactiveCommitted(env, p, s, keys, now, |p.registry| + x);
    assert CarryOver(env, p, s, keys, now).registry[|p.registry|..][x] == r[i];
  }

  /** Forgetting and the cap leave an inactive entry of the carried registry as it is. */
  lemma InactiveCommitted(env: Env, p: Ledger, latest: Ledger, keys: set<Key>, now: nat, k: nat)
    requires k < |CarryAll(env, p, latest.registry, keys).registry| && !Active(CarryAll(env, p, latest.registry, keys).registry[k])
    ensures var r' := CarryOver(env, p, latest, keys, now).registry;
            |p.registry| <= k ==> k < |r'| && r'[k] == CarryAll(env, p, latest.registry, keys).registry[k]
  {
    hide CarryAll, HoldToCap;
    var c := CarryAll(env, p, latest.registry, keys);
    var cleaned := RetireForgotten(env, c, keys, now).0;
    HoldToCapEntries(env, cleaned, now);
    assert KeptOrEvicted(cleaned.registry, HoldToCap(env, cleaned, now).registry, k, now);
  }

  function Unary(n: nat): string {
    seq(n, i => 'i')
  }

  /** The n-th of a long line of retired notes. */
  function OldNote(n: nat): Entry {
    NoteEntry("note", Stamp(Unary(n), "event", 0)).(retired := Some(Retirement(1, CapEvicted)))
  }

  function OldNotes(n: nat): seq<Entry> {
    seq(n, i requires 0 <= i < n => OldNote(i))
  }

  function Crowd(): World {
    World(Some(Ledger(OldNotes(HISTORY_LIMIT + 1), map[])), {}, None, Ids(OldNotes(HISTORY_LIMIT + 1)))
  }

  lemma OldNotesDiffer(n: nat, i: nat, j: nat)
    requires i < n && j < n && i != j
    ensures OldNotes(n)[i].id != OldNotes(n)[j].id
  {
    assert |Unary(i)| == i && |Unary(j)| == j;
  }

  lemma OldNotesUnique(n: nat)
    ensures UniqueIds(OldNotes(n)) && forall i :: 0 < i < n ==> OldNotes(n)[i] != OldNotes(n)[0]
  {
    hide OldNotes;
    assert |OldNotes(n)| == n by { OldNotesCount(n); }
    forall i, j | 0 <= i < j < n ensures OldNotes(n)[i].id != OldNotes(n)[j].id { OldNotesDiffer(n, i, j); }
  }

  lemma OldNotesCount(n: nat)
    ensures |OldNotes(n)| == n && forall i :: 0 <= i < n ==> OldNotes(n)[i] == OldNote(i)
  {
  }

  lemma FirstIsDropped()
    ensures var r := OldNotes(HISTORY_LIMIT + 1); UniqueIds(r) && DroppedNote(r, 0) && r[0] == OldNote(0)
  {
    hide OldNotes, UniqueIds, Filter;
    var n := HISTORY_LIMIT + 1;
    var r := OldNotes(n);
    OldNotesCount(n);
    OldNotesUnique(n);
    FilterAll(r, e => !Active(e));
    assert History(r) == r;
    assert LastN(r, HISTORY_LIMIT) == r[1..];
    assert forall i :: 0 <= i < HISTORY_LIMIT ==> r[1..][i] == r[i + 1];
  }

  /**
   * The claim fails of 501 retired notes: a digest that begins and commits with nothing in between
   * drops the oldest, and then adopts it as if it had just been written, at the end of the registry.
   */
  lemma DroppedNoteReturns(env: Env, now: nat)
    ensures var begun := Apply(env, Crowd(), DigestBegin);
            var after := Apply(env, begun, DigestCommit(now));
            var copied := |begun.flight.value.state.registry|;
            && OldNote(0) !in begun.flight.value.state.registry
            && copied <= |after.snapshot.value.registry| && OldNote(0) in after.snapshot.value.registry[copied..]
  {
    hide CarryOver, Normalize, UniqueIds, DroppedNote, OldNotes;
    FirstIsDropped();
    DroppedNotesReturn(env, Ledger(OldNotes(HISTORY_LIMIT + 1), map[]), {}, now, 0);
  }

  /**
   * It fails of a full rebuild over one note, with no history to drop: the note was written before
   * the rebuild began, and the commit adopts it, which is how the note gets into the rebuilt state.
   */
  lemma RebuildAdoptsOldNote(env: Env, note: Stamp, text: string, now: nat)
    requires env.pack.cap(NOTES) >= 1
    ensures var s := Ledger([NoteEntry(text, note)], map[NOTES := [text]]);
            var begun := Apply(env, World(Some(s), {}, None, {note.id}), RebuildBegin(true));
            var after := Apply(env, begun, DigestCommit(now)).snapshot.value;
            && DropsOnlyForgotten(env, {}, s.registry)
            && !AdoptsOnlyNews(env, Ids(begun.flight.value.state.registry), {}, s.registry, s.registry)
            && after.registry == s.registry && Lines(after, NOTES) == [text]
  {
    hide CarryOver, AdoptsOnlyNews, NoteForgotten;
    var e := NoteEntry(text, note);
    var s := Ledger([e], map[NOTES := [text]]);
    OldNoteIsNoNews(env, e);
    RebuiltFromNothing(env, e, s, now);
    assert Active(e) && s.registry[0] == e;
    assert Committed(env, World(Some(s), {}, None, {note.id}), EMPTY, now) == CarryOver(env, EMPTY, s, {}, now);
  }

  lemma OldNoteIsNoNews(env: Env, e: Entry)
    requires e.facet == Some(NOTES)
    ensures !AdoptsOnlyNews(env, Ids([]), {}, [e], [e])
  {
    SameGrows([e], {});
    AdoptsOnlyNewsIff(env, Ids([]), {}, [e], [e], {});
    NothingForgotten(env, e.content);
    assert [e][0].id !in Ids([]);
  }

  lemma RebuiltFromNothing(env: Env, e: Entry, s: Ledger, now: nat)
    requires env.pack.cap(NOTES) >= 1 && s.registry == [e] && e.facet == Some(NOTES) && Active(e)
    ensures CarryOver(env, EMPTY, s, {}, now) == Ledger([e], map[NOTES := [e.content]])
  {
    hide CarryAll, HoldToCap;
    CarriedFromNothing(env, e);
    WithinCap(env, Ledger([e], map[NOTES := [e.content]]), now);
  }

  lemma NothingForgotten(env: Env, text: string)
    ensures !NoteForgotten(env, {}, text)
  {
  }

  lemma WithinCap(env: Env, s: Ledger, now: nat)
    requires |Lines(s, NOTES)| <= env.pack.cap(NOTES)
    ensures HoldToCap(env, s, now) == s
  {
  }

  lemma CarriedFromNothing(env: Env, e: Entry)
    requires e.facet == Some(NOTES) && Active(e)
    ensures CarryAll(env, EMPTY, [e], {}) == Ledger([e], map[NOTES := [e.content]])
  {
    NothingForgotten(env, e.content);
    hide NoteForgotten;
    assert [e][..0] == [];
    assert CarryAll(env, EMPTY, [], {}) == EMPTY;
    assert CarryStep(env, EMPTY, 0, e, {}) == Adopt(env, EMPTY, e, {});
    assert [] + [e] == [e] && [] + [e.content] == [e.content];
  }
}
