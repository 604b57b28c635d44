/**
 * One scope's store as a state machine: `remember` and `forget` are transactions on the latest
 * snapshot (apps/mcp/src/embedded.ts); a digest reads a snapshot, works on a copy of it while
 * other steps happen, and commits (apps/mcp/src/digest-write.ts).
 */
module ScopeStore {
  import opened Options
  import opened FactRegistry
  import opened RegistryLaws
  import opened RegistryHistory
  import opened DigestWork
  import opened Handoff
  import opened HandoffLaws

  /** A digest under way: the forgotten keys it read at the start, and its in-memory ledger. */
  datatype Flight = Flight(keys: set<Key>, state: Ledger)

  /** `issued` records the ids handed out so far. */
  datatype World = World(snapshot: Option<Ledger>, forgotten: set<Key>, flight: Option<Flight>, issued: set<Id>)

  datatype Step =
    | Remember(text: string, stamp: Stamp)
    | Forget(key: Key, now: nat)
    | DigestBegin
    | RebuildBegin(full: bool)
    | DigestStep(work: Work)
    | DigestCommit(now: nat)
    | DigestAbort

  const EMPTY := Ledger([], map[])

  function Latest(w: World): Ledger {
    if w.snapshot.Some? then w.snapshot.value else EMPTY
  }

  /** The first note of a scope is written without looking at the forgotten keys. */
  function Remembered(env: Env, w: World, text: string, stamp: Stamp): Ledger {
    if w.snapshot.None? then AddNote(env, EMPTY, text, stamp, {}).state
    else
      var result := AddNote(env, w.snapshot.value, text, stamp, w.forgotten);
      if result.changed then result.state else w.snapshot.value
  }

  function ForgetIn(env: Env, snapshot: Option<Ledger>, key: Key, now: nat): Option<Ledger> {
    if snapshot.None? then None
    else
      var (s, count) := RetireForgotten(env, snapshot.value, {key}, now);
      if count > 0 then Some(s) else snapshot
  }

  /** The state a digest writes: carried over when there is a snapshot to carry from. */
  function Committed(env: Env, w: World, p: Ledger, now: nat): Ledger {
    if w.snapshot.None? then p else CarryOver(env, p, w.snapshot.value, w.forgotten, now)
  }

  function StepIds(step: Step): set<Id> {
    match step
    case Remember(_, stamp) => {stamp.id}
    case DigestStep(work) => WorkIds(work)
    case _ => {}
  }

  /**
   * A rebuild (apps/worker/src/main.ts:464-523) reads no forgotten keys; a full one starts from no state, and
   * each of its later chunks from the state just committed. A step that is not enabled (a second
   * digest, work or commit with none under way) changes nothing.
   */
  function Effect(env: Env, w: World, step: Step): World {
    match step
    case Remember(text, stamp) => w.(snapshot := Some(Remembered(env, w, text, stamp)))
    case Forget(key, now) => w.(snapshot := ForgetIn(env, w.snapshot, key, now), forgotten := w.forgotten + {key})
    case DigestBegin =>
      if w.flight.Some? then w else w.(flight := Some(Flight(w.forgotten, NormalizeLedger(Latest(w)))))
    case RebuildBegin(full) =>
      if w.flight.Some? then w else w.(flight := Some(Flight({}, if full then EMPTY else NormalizeLedger(Latest(w)))))
    case DigestStep(work) =>
      if w.flight.None? then w
      else w.(flight := Some(w.flight.value.(state := Perform(env, w.flight.value.keys, w.flight.value.state, work))))
    case DigestCommit(now) =>
      if w.flight.None? then w else w.(snapshot := Some(Committed(env, w, w.flight.value.state, now)), flight := None)
    case DigestAbort => w.(flight := None)
  }

  function Apply(env: Env, w: World, step: Step): World {
    Effect(env, w, step).(issued := w.issued + StepIds(step))
  }

  function Run(env: Env, w: World, steps: seq<Step>): World {
    if steps == [] then w else Apply(env, Run(env, w, steps[..|steps| - 1]), steps[|steps| - 1])
  }

  // ---------------------------------------------------------------- hypotheses

  /** Ids are never reused, and one consolidation draws a new one for each line. */
  predicate Lawful(w: World, step: Step) {
    && StepIds(step) !! w.issued
    && (step.DigestStep? && step.work.Consolidated? ==>
          forall i, j :: 0 <= i < j < |step.work.result| ==> step.work.result[i].id != step.work.result[j].id)
  }

  ghost predicate LawfulRun(env: Env, w: World, steps: seq<Step>) {
    forall n :: 0 <= n < |steps| ==> Lawful(Run(env, w, steps[..n]), steps[n])
  }

  /** No event type routes to the notes, and both packs show notes in the same group. */
  ghost predicate PackFits(env: Env) {
    NotesUnrouted(env.pack) && env.defaultPack.group(NOTES) == env.pack.group(NOTES)
  }

  /** Any stored snapshot with unique ids, legacy entries included, and no digest under way. */
  predicate Start(w: World) {
    w.flight.None? && UniqueIds(Latest(w).registry) && Names(Latest(w).registry) <= w.issued
  }

  // ---------------------------------------------------------------- the invariant

  /** What the digest's copy `p` and the latest registry `s` agree on about the entries both hold. */
  predicate Tracks(env: Env, keys: set<Key>, s: seq<Entry>, p: seq<Entry>) {
    forall i, j :: 0 <= i < |s| && 0 <= j < |p| && s[i].id == p[j].id ==> TracksAt(env, keys, s, p, i, j)
  }

  predicate TracksAt(env: Env, keys: set<Key>, s: seq<Entry>, p: seq<Entry>, i: nat, j: nat)
    requires i < |s| && j < |p|
  {
    && SameStatement(s[i], p[j])
    && (HeldNote(s, i) && !NoteForgotten(env, keys, s[i].content) ==> HeldNote(p, j))
  }

  predicate Sound(env: Env, w: World) {
    && UniqueIds(Latest(w).registry) && Names(Latest(w).registry) <= w.issued
    && (w.flight.Some? ==>
          && UniqueIds(w.flight.value.state.registry) && Names(w.flight.value.state.registry) <= w.issued
          && w.flight.value.keys <= w.forgotten
          && Tracks(env, w.forgotten, Latest(w).registry, w.flight.value.state.registry)
          && LinksTrack(Latest(w).registry, w.flight.value.state.registry))
  }

  /** Tracking survives growth of the latest registry. */
  lemma TracksLatest(env: Env, keys: set<Key>, keys': set<Key>, s: seq<Entry>, s': seq<Entry>, p: seq<Entry>, issued: set<Id>)
    requires Tracks(env, keys, s, p) && keys <= keys'
    requires Grows(s, s', issued) && Ids(s) !! issued && Ids(p) !! issued
    ensures Tracks(env, keys', s', p)
  {
    forall i, j | 0 <= i < |s'| && 0 <= j < |p| && s'[i].id == p[j].id ensures TracksAt(env, keys', s', p, i, j) {
      assert p[j] in p && p[j].id in Ids(p);
      assert i < |s|;
      assert Evolves(s[i], s'[i]);
      assert TracksAt(env, keys, s, p, i, j);
      if HeldNote(s', i) { HeldBefore(s, s', issued, i); }
    }
  }

  /** Tracking survives a step of the digest. */
  lemma TracksFlight(env: Env, keys: set<Key>, s: seq<Entry>, f: Flight, work: Work)
    requires PackFits(env)
    requires Tracks(env, keys, s, f.state.registry) && f.keys <= keys
    requires Ids(s) !! WorkIds(work) && Ids(f.state.registry) !! WorkIds(work)
    ensures Tracks(env, keys, s, Perform(env, f.keys, f.state, work).registry)
  {
    var p := f.state.registry;
    var p' := Perform(env, f.keys, f.state, work).registry;
    WorkGrows(env, f.keys, f.state, work);
    WorkKeepsNotes(env, f.keys, f.state, work);
    forall i, j | 0 <= i < |s| && 0 <= j < |p'| && s[i].id == p'[j].id ensures TracksAt(env, keys, s, p', i, j) {
      assert s[i] in s && s[i].id in Ids(s);
      assert j < |p|;
      assert Evolves(p[j], p'[j]);
      assert TracksAt(env, keys, s, p, i, j);
      if HeldNote(s, i) && !NoteForgotten(env, keys, s[i].content) {
        assert Shielded(env, f.keys, p[j]);
        assert KeepsNote(env.lex, f.state, Perform(env, f.keys, f.state, work), j);
      }
    }
  }

  lemma LinksTrackLatest(s: seq<Entry>, s': seq<Entry>, p: seq<Entry>, issued: set<Id>)
    requires LinksTrack(s, p) && Grows(s, s', issued) && Names(p) !! issued
    ensures LinksTrack(s', p)
  {
    NamesAfterGrowth(s, s', issued);
    forall j | 0 <= j < |p| && p[j].supersededBy.Some? && p[j].supersededBy.value in Ids(s') ensures LinkIn(s', p[j].id, p[j].supersededBy) {
      assert p[j] in p && p[j].supersededBy.value in Names(p);
      var x :| 0 <= x < |s'| && s'[x].id == p[j].supersededBy.value;
      assert x < |s|;
      assert Evolves(s[x], s'[x]) && s[x] in s;
      var i :| 0 <= i < |s| && s[i].id == p[j].id && s[i].supersededBy == p[j].supersededBy;
      assert Evolves(s[i], s'[i]);
    }
  }

  lemma LinksTrackFlight(s: seq<Entry>, p: seq<Entry>, p': seq<Entry>, issued: set<Id>)
    requires LinksTrack(s, p) && Grows(p, p', issued) && Ids(s) !! issued
    ensures LinksTrack(s, p')
  {
    forall j | 0 <= j < |p'| && p'[j].supersededBy.Some? && p'[j].supersededBy.value in Ids(s) ensures LinkIn(s, p'[j].id, p'[j].supersededBy) {
      assert j < |p|;
      assert Evolves(p[j], p'[j]);
      assert p[j].supersededBy == p'[j].supersededBy;
    }
  }

  lemma TracksAtBegin(env: Env, keys: set<Key>, s: seq<Entry>)
    requires UniqueIds(s)
    ensures Tracks(env, keys, s, Normalize(s)) && LinksTrack(s, Normalize(s)) && Names(Normalize(s)) <= Names(s)
  {
    var p := Normalize(s);
    forall j | 0 <= j < |p| ensures LinkIn(s, p[j].id, p[j].supersededBy) {
      assert p[j] in s;
    }
    forall i, j | 0 <= i < |s| && 0 <= j < |p| && s[i].id == p[j].id ensures TracksAt(env, keys, s, p, i, j) {
      assert p[j] in s;
      var k :| 0 <= k < |s| && s[k] == p[j];
      assert k == i;
      if HeldNote(s, i) { NormalizeKeepsCallers(s, s[i]); }
    }
  }

  /** A digest that starts from no state has nothing to disagree about. */
  lemma TracksNothing(env: Env, keys: set<Key>, s: seq<Entry>)
    ensures Tracks(env, keys, s, []) && LinksTrack(s, []) && Names([]) == {} && UniqueIds([])
  {
  }

  lemma RememberedGrows(env: Env, w: World, text: string, stamp: Stamp)
    requires UniqueIds(Latest(w).registry) && stamp.id !in Ids(Latest(w).registry)
    ensures Grows(Latest(w).registry, Remembered(env, w, text, stamp).registry, {stamp.id})
    ensures UniqueIds(Remembered(env, w, text, stamp).registry)
    ensures Names(Remembered(env, w, text, stamp).registry) <= Names(Latest(w).registry) + {stamp.id}
  {
    var s := Latest(w);
    var keys := if w.snapshot.None? then {} else w.forgotten;
    AddNoteGrows(env, s, text, stamp, keys);
    AddNoteAddsOne(env, s, text, stamp, keys);
    UniqueAfterOne(s.registry, AddNote(env, s, text, stamp, keys).state.registry, {stamp.id});
    NamesAfterGrowth(s.registry, AddNote(env, s, text, stamp, keys).state.registry, {stamp.id});
  }

  lemma ForgetGrows(env: Env, w: World, key: Key, now: nat)
    requires UniqueIds(Latest(w).registry)
    ensures var s' := Latest(Effect(env, w, Forget(key, now)));
            && Grows(Latest(w).registry, s'.registry, {}) && UniqueIds(s'.registry) && Names(s'.registry) <= Names(Latest(w).registry)
  {
    var r' := Latest(Effect(env, w, Forget(key, now))).registry;
    if w.snapshot.Some? { RetireForgottenGrows(env, w.snapshot.value, {key}, now); }
    UniqueAfterOne(Latest(w).registry, r', {});
    NamesAfterGrowth(Latest(w).registry, r', {});
  }

  lemma SoundRemember(env: Env, w: World, text: string, stamp: Stamp)
    requires Sound(env, w) && Lawful(w, Remember(text, stamp))
    ensures Sound(env, Apply(env, w, Remember(text, stamp)))
  {
    hide AddNote, Tracks, LinksTrack, Grows;
    var s, s' := Latest(w).registry, Remembered(env, w, text, stamp).registry;
    RememberedGrows(env, w, text, stamp);
    if w.flight.Some? {
      TracksLatest(env, w.forgotten, w.forgotten, s, s', w.flight.value.state.registry, {stamp.id});
      LinksTrackLatest(s, s', w.flight.value.state.registry, {stamp.id});
    }
  }

  lemma SoundForget(env: Env, w: World, key: Key, now: nat)
    requires Sound(env, w)
    ensures Sound(env, Apply(env, w, Forget(key, now)))
  {
    hide ForgetIn, Tracks, LinksTrack, Grows;
    var s, s' := Latest(w).registry, Latest(Effect(env, w, Forget(key, now))).registry;
    ForgetGrows(env, w, key, now);
    if w.flight.Some? {
      TracksLatest(env, w.forgotten, w.forgotten + {key}, s, s', w.flight.value.state.registry, {});
      LinksTrackLatest(s, s', w.flight.value.state.registry, {});
    }
  }

  lemma SoundBegin(env: Env, w: World, step: Step)
    requires Sound(env, w) && (step.DigestBegin? || step.RebuildBegin?)
    ensures Sound(env, Apply(env, w, step))
  {
    hide Normalize, Tracks, LinksTrack, Names, UniqueIds;
    var s := Latest(w).registry;
    NormalizeUnique(s);
    TracksAtBegin(env, w.forgotten, s);
    TracksNothing(env, w.forgotten, s);
  }

  lemma SoundWork(env: Env, w: World, work: Work)
    requires PackFits(env) && Sound(env, w) && Lawful(w, DigestStep(work))
    ensures Sound(env, Apply(env, w, DigestStep(work)))
  {
    hide Perform, Tracks, LinksTrack, Grows, WorkIds;
    if w.flight.Some? {
      var s, f := Latest(w).registry, w.flight.value;
      WorkUnique(env, f.keys, f.state, work);
      WorkGrows(env, f.keys, f.state, work);
      NamesAfterGrowth(f.state.registry, Perform(env, f.keys, f.state, work).registry, WorkIds(work));
      TracksFlight(env, w.forgotten, s, f, work);
      LinksTrackFlight(s, f.state.registry, Perform(env, f.keys, f.state, work).registry, WorkIds(work));
    }
  }

  lemma SoundCommit(env: Env, w: World, now: nat)
    requires Sound(env, w)
    ensures Sound(env, Apply(env, w, DigestCommit(now)))
  {
    hide CarryOver, Tracks, LinksTrack, Names, UniqueIds;
    if w.flight.Some? && w.snapshot.Some? {
      CarryOverUnique(env, w.flight.value.state, w.snapshot.value, w.forgotten, now);
    }
  }

  /** Every lawful step keeps the store sound. */
  lemma SoundStep(env: Env, w: World, step: Step)
    requires PackFits(env) && Sound(env, w) && Lawful(w, step)
    ensures Sound(env, Apply(env, w, step))
  {
    hide Effect, Sound, Lawful, PackFits;
    match step {
      case Remember(text, stamp) => SoundRemember(env, w, text, stamp);
      case Forget(key, now) => SoundForget(env, w, key, now);
      case DigestBegin | RebuildBegin(_) => SoundBegin(env, w, step);
      case DigestStep(work) => SoundWork(env, w, work);
      case DigestCommit(now) => SoundCommit(env, w, now);
      case DigestAbort => SoundAbort(env, w);
    }
  }

  lemma SoundAbort(env: Env, w: World)
    requires Sound(env, w)
    ensures Sound(env, Apply(env, w, DigestAbort))
  {
  }

  lemma LawfulPrefix(env: Env, w: World, steps: seq<Step>, n: nat)
    requires LawfulRun(env, w, steps) && n <= |steps|
    ensures LawfulRun(env, w, steps[..n])
  {
    forall k | 0 <= k < n ensures Lawful(Run(env, w, steps[..n][..k]), steps[..n][k]) {
      assert steps[..n][..k] == steps[..k];
      assert Lawful(Run(env, w, steps[..k]), steps[k]);
    }
  }

  lemma {:induction false} SoundRun(env: Env, w: World, steps: seq<Step>)
    requires PackFits(env) && Sound(env, w) && LawfulRun(env, w, steps)
    ensures Sound(env, Run(env, w, steps))
  {
    hide Sound, Lawful, Apply;
    if steps != [] {
      var n := |steps| - 1;
      LawfulPrefix(env, w, steps, n);
      SoundRun(env, w, steps[..n]);
      assert Lawful(Run(env, w, steps[..n]), steps[n]);
      SoundStep(env, Run(env, w, steps[..n]), steps[n]);
    }
  }

  // ---------------------------------------------------------------- no note is lost

  /** What the cap is applied to at commit. */
  function Carried(env: Env, w: World, now: nat): Ledger
    requires w.flight.Some? && w.snapshot.Some?
  {
    RetireForgotten(env, CarryAll(env, w.flight.value.state, w.snapshot.value.registry, w.forgotten), w.forgotten, now).0
  }

  /** More lines than the facet holds are backed by active caller notes. */
  predicate Crowded(env: Env, s: Ledger) {
    |NotesOfCallers(env.lex, s)| > env.pack.cap(NOTES)
  }

  /** `e` is in the committed registry, still active, or evicted because caller notes alone overflow the cap. */
  predicate Survives(e: Entry, r: seq<Entry>, crowded: bool, now: nat) {
    exists k :: 0 <= k < |r| && (r[k] == e || (crowded && r[k] == e.(retired := Some(Retirement(now, CapEvicted)))))
  }

  lemma CarriedHolds(env: Env, w: World, now: nat, i: nat) returns (k: nat)
    requires Sound(env, w) && w.flight.Some? && w.snapshot.Some?
    requires HeldNote(w.snapshot.value.registry, i)
    requires !NoteForgotten(env, w.forgotten, w.snapshot.value.registry[i].content)
    ensures HeldNote(Carried(env, w, now).registry, k)
    ensures Carried(env, w, now).registry[k] == w.snapshot.value.registry[i]
  {
    var p := w.flight.value.state;
    var s := w.snapshot.value.registry;
    var e := s[i];
    var c := CarryAll(env, p, s, w.forgotten);
    CarriedRegistry(env, p, s, w.forgotten);
    if e.id in Ids(p.registry) {
      var j :| 0 <= j < |p.registry| && p.registry[j].id == e.id;
      assert TracksAt(env, w.forgotten, s, p.registry, i, j);
      forall x | 0 <= x < |s| && s[x].id == p.registry[j].id ensures Active(s[x]) { assert x == i; }
      SettleKeeps(p.registry[j], s);
      k := j;
    } else {
      var extra := Adopted(env, Ids(p.registry), w.forgotten, s);
      assert e in extra;
      var x :| 0 <= x < |extra| && extra[x] == e;
      k := |p.registry| + x;
      assert c.registry[k] == c.registry[|p.registry|..][x];
    }
    assert c.registry[k] == e;
    CallerAfterCarry(env, p, s, w.forgotten, e);
    var cleaned := Carried(env, w, now);
    RetireForgottenGrows(env, c, w.forgotten, now);
    CallerStable(c.registry, cleaned.registry, {}, e);
  }
}
