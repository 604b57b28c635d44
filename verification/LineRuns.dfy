/**
 * Whether every active caller's note holds a line of `profile.notes`, over whole runs of a scope's
 * store: exactly as long as no step displaces one.
 */
module LineRuns {
  import opened Options
  import opened Seqs
  import opened FactRegistry
  import opened RegistryLaws
  import opened RegistryHistory
  import opened MemoryFacts
  import opened DigestFacts
  import opened FacetConsolidation
  import opened DigestWork
  import opened Handoff
  import opened HandoffLaws
  import opened ScopeStore
  import opened ScopeTheorems
  import opened NoteLines
  import opened CommitLines
  import DroppedHistory

  // ---------------------------------------------------------------- the digest's copy

  /** No step of a digest takes a caller's note's line away while the note stays active. */
  lemma WorkKeepsShown(env: Env, keys: set<Key>, s: Ledger, w: Work)
    requires NotesUnrouted(env.pack) && Shown(env.lex, s) && Ids(s.registry) !! WorkIds(w)
    ensures Shown(env.lex, Perform(env, keys, s, w))
  {
    hide Perform, IsCallerNote, Lineless, Grows, KeepsNotes;
    if w.Pruned? {
      PruneKeepsShown(env, keys, s, w.now);
      PrunedIs(env, keys, s, w);
    } else {
      var s' := Perform(env, keys, s, w);
      forall i | 0 <= i < |s'.registry| ensures !Lineless(env.lex, s'.registry, Lines(s', NOTES), i) {
        WorkShowsAt(env, keys, s, w, i);
      }
    }
  }

  lemma PrunedIs(env: Env, keys: set<Key>, s: Ledger, w: Work)
    requires w.Pruned?
    ensures Perform(env, keys, s, w) == PruneForgotten(env, env.defaultPack, s, keys, w.now)
  {
  }

  /** Only pruning reads the forgotten keys. */
  lemma KeysUnused(env: Env, keys: set<Key>, s: Ledger, w: Work)
    requires !w.Pruned?
    ensures Perform(env, keys, s, w) == Perform(env, {}, s, w)
  {
    hide Promote, RouteEvent, ApplyFact, ApplyConsolidation;
  }

  lemma WorkShowsAt(env: Env, keys: set<Key>, s: Ledger, w: Work, i: nat)
    requires NotesUnrouted(env.pack) && Shown(env.lex, s) && Ids(s.registry) !! WorkIds(w) && !w.Pruned?
    ensures var s' := Perform(env, keys, s, w); !Lineless(env.lex, s'.registry, Lines(s', NOTES), i)
  {
    hide Perform;
    var s' := Perform(env, keys, s, w);
    WorkGrows(env, keys, s, w);
    if HeldNote(s'.registry, i) {
      if i < |s.registry| {
        HeldBefore(s.registry, s'.registry, WorkIds(w), i);
        KeysUnused(env, keys, s, w);
        WorkKeepsNotes(env, {}, s, w);
        assert KeepsNote(env.lex, s, s', i);
        assert !Lineless(env.lex, s.registry, Lines(s, NOTES), i);
        var t :| t in Lines(s, NOTES) && env.lex.canon(t) == env.lex.canon(s.registry[i].content);
        assert t in Lines(s', NOTES);
      } else {
        NewNotesShown(env, keys, s, w, i);
        assert s'.registry[i].content in Lines(s', NOTES);
      }
    }
  }

  /** An entry a digest appends is no caller's note, unless it has the shape of one and a line with it. */
  lemma NewNotesShown(env: Env, keys: set<Key>, s: Ledger, w: Work, i: nat)
    requires !w.Pruned? && i >= |s.registry| && HeldNote(Perform(env, keys, s, w).registry, i)
    ensures var s' := Perform(env, keys, s, w); s'.registry[i].content in Lines(s', NOTES)
  {
    hide Perform;
    if w.Consolidated? {
      ConsolidatedShown(env, keys, s, w, i);
    } else {
      WorkWritesNoNote(env, keys, s, w);
      NotACaller(Perform(env, keys, s, w).registry, i);
    }
  }

  lemma NotACaller(r: seq<Entry>, i: nat)
    requires i < |r| && r[i].origin.None? && !CallerShape(r[i])
    ensures !HeldNote(r, i)
  {
  }

  /** A consolidated note states one of the proposed texts, which are lines of its facet. */
  lemma ConsolidatedShown(env: Env, keys: set<Key>, s: Ledger, w: Work, i: nat)
    requires w.Consolidated? && |s.registry| <= i < |Perform(env, keys, s, w).registry| && Perform(env, keys, s, w).registry[i].facet == Some(NOTES)
    ensures var s' := Perform(env, keys, s, w); s'.registry[i].content in Lines(s', NOTES)
  {
    hide RelinkAll, NewEntries, MatchedSources, Acceptable, Interleave, ConsolidatedEntry;
    OnlyWhenAcceptable(env, keys, s, w);
    ConsolidatedParts(env.lex, s, w.facet, w.items, w.result, w.now);
    var k := i - |s.registry|;
    StatesItsText(env.lex, s.registry, w.facet, w.items, w.result, w.now, k);
    assert Texts(w.result)[k] in Texts(w.result);
    InInterleave(env.lex, s.registry, w.facet, Lines(s, w.facet), Texts(w.result), Texts(w.result)[k]);
  }

  lemma OnlyWhenAcceptable(env: Env, keys: set<Key>, s: Ledger, w: Work)
    requires w.Consolidated?
    ensures |Perform(env, keys, s, w).registry| > |s.registry| ==> Acceptable(w.items, w.result)
  {
    hide RelinkAll, NewEntries, Interleave, Acceptable;
  }

  lemma StatesItsText(lex: Lexicon, r: seq<Entry>, facet: string, items: seq<string>, result: seq<Merged>, now: nat, k: nat)
    requires k < |result|
    ensures var e := NewEntries(lex, r, facet, items, result, now)[k]; e.content == result[k].text && e.facet == Some(facet)
  {
  }

  lemma InInterleave(lex: Lexicon, r: seq<Entry>, facet: string, lines: seq<string>, texts: seq<string>, t: string)
    requires t in texts
    ensures t in Interleave(lex, r, facet, lines, texts)
  {
    hide CallerLines, IsCallerNoteText;
  }

  lemma PruneKeepsShown(env: Env, keys: set<Key>, s: Ledger, now: nat)
    requires Shown(env.lex, s)
    ensures Shown(env.lex, PruneForgotten(env, env.defaultPack, s, keys, now))
  {
    var s' := PruneForgotten(env, env.defaultPack, s, keys, now);
    assert Grows(s.registry, s'.registry, {});
    forall i | 0 <= i < |s'.registry| && HeldNote(s'.registry, i) ensures HasLine(env.lex, Lines(s', NOTES), s'.registry[i].content) {
      HeldBefore(s.registry, s'.registry, {}, i);
      assert !Lineless(env.lex, s.registry, Lines(s, NOTES), i);
      var t :| t in Lines(s, NOTES) && env.lex.canon(t) == env.lex.canon(s.registry[i].content);
      assert t in Lines(s', NOTES);
    }
  }

  /** Nothing new claims to be a caller's note, or looks like one. */
  predicate DigestMade(r: seq<Entry>, r': seq<Entry>) {
    forall i :: |r| <= i < |r'| ==> r'[i].origin.None? && !CallerShape(r'[i])
  }

  lemma RoutedMade(env: Env, s: Ledger, evt: RoutedEvent, previous: set<Id>, id: Id, now: nat)
    ensures DigestMade(s.registry, RouteEvent(env, s, evt, previous, id, now).state.registry)
  {
    hide SameLine, UnprotectedLine, ProtectedLine, RemoveAt, FactSized, InRegistry;
  }

  lemma WorkWritesNoNote(env: Env, keys: set<Key>, s: Ledger, w: Work)
    requires !w.Consolidated?
    ensures DigestMade(s.registry, Perform(env, keys, s, w).registry)
  {
    match w {
      case Promoted(_, _, _, _, _, _) =>
      case Routed(evt, previous, id, now) => RoutedMade(env, s, evt, previous, id, now);
      case Extracted(fact, from, id, now) => ExtractedMade(env, s, fact, from, id, now);
      case Pruned(_) =>
    }
  }

  lemma LinkedMade(lex: Lexicon, s: Ledger, facet: string, line: string, value: string, news: bool, entities: seq<string>, ev: Option<Evidence>, id: Id, now: nat)
    ensures DigestMade(s.registry, Linked(lex, s, facet, line, value, news, entities, ev, id, now).registry)
  {
  }

  lemma RestateMade(env: Env, s: Ledger, facet: string, i: nat, value: string, entities: seq<string>, ev: Option<Evidence>, id: Id, now: nat)
    requires i < |Lines(s, facet)|
    ensures DigestMade(s.registry, Restate(env, s, facet, i, value, entities, ev, id, now).state.registry)
  {
    var line := Lines(s, facet)[i];
    LinkedMade(env.lex, s, facet, line, value, true, entities, ev, id, now);
    LinkedMade(env.lex, s, facet, line, value, false, entities, ev, id, now);
  }

  lemma PushMade(lex: Lexicon, s: Ledger, facet: string, value: string, entities: seq<string>, ev: Option<Evidence>, id: Id, now: nat)
    ensures DigestMade(s.registry, PushFact(lex, s, facet, value, entities, ev, id, now).registry)
  {
  }

  lemma AppendMade(env: Env, s: Ledger, facet: string, value: string, entities: seq<string>, ev: Option<Evidence>, id: Id, now: nat)
    ensures DigestMade(s.registry, Append(env, s, facet, value, entities, ev, id, now).state.registry)
  {
    var lines := Lines(s, facet);
    var i := DigestLine(env.lex, s.registry, facet, lines);
    PushMade(env.lex, s, facet, value, entities, ev, id, now);
    if i < |lines| {
      var room := SetLines(s, facet, RemoveAt(lines, i));
      PushMade(env.lex, room, facet, value, entities, ev, id, now);
      PushMade(env.lex, RetireFact(env.lex, room, lines[i], CapEvicted, now, facet, false, true), facet, value, entities, ev, id, now);
    }
  }

  lemma ExtractedMade(env: Env, s: Ledger, fact: ProposedFact, from: Sources, id: Id, now: nat)
    ensures DigestMade(s.registry, ApplyFact(env, s, fact, from, id, now).state.registry)
  {
    var facet := env.lex.trim(fact.facet);
    var value := env.lex.stripIds(env.lex.trim(fact.value));
    var ev := EvidenceFor(env.pack, facet, from);
    var ready := WithFacet(s, facet);
    var i := SameLine(env.lex, Lines(ready, facet), value);
    if i < |Lines(ready, facet)| {
      RestateMade(env, ready, facet, i, value, fact.entities, ev, id, now);
    }
    AppendMade(env, ready, facet, value, fact.entities, ev, id, now);
  }

  // ---------------------------------------------------------------- the order of the entries

  lemma OrderedUnderGrowth(s: seq<Entry>, s': seq<Entry>, p: seq<Entry>, issued: set<Id>)
    requires Ordered(s, p) && Grows(s, s', issued) && Ids(p) !! issued
    ensures Ordered(s', p)
  {
    forall i, j | 0 <= i < |s'| && 0 <= j < |s'| && Active(s'[i]) && s'[i].id !in Ids(p) && s'[j].id in Ids(p) ensures j < i {
      assert j < |s|;
      assert Evolves(s[j], s'[j]);
      if i < |s| { assert Evolves(s[i], s'[i]); }
    }
  }

  lemma OrderedForFlight(s: seq<Entry>, p: seq<Entry>, p': seq<Entry>, issued: set<Id>)
    requires Ordered(s, p) && Grows(p, p', issued) && Ids(s) !! issued
    ensures Ordered(s, p')
  {
    NamesAfterGrowth(p, p', issued);
    forall j | 0 <= j < |s| && s[j].id in Ids(p') ensures s[j].id in Ids(p) {
      assert s[j] in s && s[j].id in Ids(s);
      var k :| 0 <= k < |p'| && p'[k].id == s[j].id;
      assert k < |p|;
      assert Evolves(p[k], p'[k]) && p[k] in p;
    }
  }

  lemma OrderedAtBegin(s: seq<Entry>)
    requires UniqueIds(s)
    ensures Ordered(s, Normalize(s)) && Ordered(s, [])
  {
    NormalizeKeepsActive(s);
    forall i | 0 <= i < |s| && Active(s[i]) ensures s[i].id in Ids(Normalize(s)) {
      assert s[i] in Normalize(s);
    }
  }

  /** The entries a digest under way knows come before the active ones it does not. */
  predicate InOrder(w: World) {
    w.flight.Some? ==> Ordered(Latest(w).registry, w.flight.value.state.registry)
  }

  lemma OrderStep(env: Env, w: World, step: Step)
    requires PackFits(env) && Sound(env, w) && Lawful(w, step) && InOrder(w)
    ensures InOrder(Apply(env, w, step))
  {
    hide AddNote, RetireForgotten, CarryOver, Perform, Normalize, Grows, Ordered, Tracks, LinksTrack;
    var s := Latest(w).registry;
    match step {
      case Remember(text, stamp) =>
        RememberedGrows(env, w, text, stamp);
        if w.flight.Some? {
          OrderedUnderGrowth(s, Remembered(env, w, text, stamp).registry, w.flight.value.state.registry, {stamp.id});
        }
      case Forget(key, now) =>
        ForgetGrows(env, w, key, now);
        if w.flight.Some? {
          OrderedUnderGrowth(s, Latest(Effect(env, w, step)).registry, w.flight.value.state.registry, {});
        }
      case DigestBegin | RebuildBegin(_) => OrderedAtBegin(s);
      case DigestStep(work) =>
        if w.flight.Some? {
          var f := w.flight.value;
          WorkGrows(env, f.keys, f.state, work);
          OrderedForFlight(s, f.state.registry, Perform(env, f.keys, f.state, work).registry, WorkIds(work));
        }
      case _ =>
    }
  }

  // ---------------------------------------------------------------- whole runs

  /** Every active caller's note of the snapshot holds a line, and so does every one of the digest's copy. */
  predicate ShownWorld(env: Env, w: World) {
    && Shown(env.lex, Latest(w))
    && (w.flight.Some? ==> Shown(env.lex, w.flight.value.state))
  }

  /** The note has the shape of a caller's and sources that say otherwise, but not in the history that is kept. */
  predicate Revealed(r: seq<Entry>, i: nat) {
    i < |r| && Active(r[i]) && r[i].facet == Some(NOTES) && !IsCallerNote(r[i], r) && IsCallerNote(r[i], Normalize(r))
  }

  /** Starting a digest makes a note without a line pass for a caller's. */
  predicate BeginReveals(env: Env, s: Ledger) {
    exists i :: 0 <= i < |s.registry| && Revealed(s.registry, i) && !HasLine(env.lex, Lines(s, NOTES), s.registry[i].content)
  }

  /**
   * The step leaves a caller's note active without a line: a write displaces it, a commit loses it,
   * or a digest starts from a copy in which another note passes for a caller's.
   */
  ghost predicate Displaces(env: Env, w: World, step: Step) {
    match step
    case Remember(text, stamp) => NoteDisplaces(env, Latest(w), text, if w.snapshot.None? then {} else w.forgotten, stamp.now)
    case DigestCommit(now) =>
      && w.flight.Some? && w.snapshot.Some?
      && var p, s := w.flight.value.state, w.snapshot.value.registry;
         exists i :: 0 <= i < |JoinedEntries(env, p.registry, s, w.forgotten)| && CommitLoses(env, p, s, w.forgotten, now, i)
    case DigestBegin => w.flight.None? && BeginReveals(env, Latest(w))
    case RebuildBegin(full) => w.flight.None? && !full && BeginReveals(env, Latest(w))
    case _ => false
  }

  /** The copy a digest starts from shows every caller's note if and only if none comes to pass for one. */
  lemma BeginShownIff(env: Env, s: Ledger)
    requires UniqueIds(s.registry) && Shown(env.lex, s)
    ensures Shown(env.lex, NormalizeLedger(s)) <==> !BeginReveals(env, s)
  {
    hide HasLine, IsCallerNote, Normalize;
    var r, p := s.registry, Normalize(s.registry);
    NormalizeKeepsActive(r);
    if !Shown(env.lex, NormalizeLedger(s)) {
      var k :| 0 <= k < |p| && Lineless(env.lex, p, Lines(s, NOTES), k);
      assert p[k] in r;
      var i :| 0 <= i < |r| && r[i] == p[k];
      assert !Lineless(env.lex, r, Lines(s, NOTES), i);
      assert Revealed(r, i);
    }
    if BeginReveals(env, s) {
      var i :| 0 <= i < |r| && Revealed(r, i) && !HasLine(env.lex, Lines(s, NOTES), r[i].content);
      assert r[i] in p;
      var k :| 0 <= k < |p| && p[k] == r[i];
      assert Lineless(env.lex, p, Lines(s, NOTES), k);
      assert NormalizeLedger(s).registry == p && Lines(NormalizeLedger(s), NOTES) == Lines(s, NOTES);
    }
  }

  /** An entry of the shape a consolidation of old notes leaves. */
  function Unsigned(id: Id, text: string, to: Option<Id>): Entry {
    NewEntry(id, text, Profile, 0.9, 0, Evidence("e", EventSource), Some(NOTES), []).(supersededBy := to)
  }

  /** Two sources, what replaced them, and a history that pushes the sources out. */
  function Consolidation(text: string): seq<Entry> {
    [Unsigned("a", text, Some("c")), Unsigned("b", text, Some("c")), Unsigned("c", text, None)]
  }

  lemma OldNotesApart(text: string)
    ensures var old500 := DroppedHistory.OldNotes(HISTORY_LIMIT);
            && |old500| == HISTORY_LIMIT
            && forall i :: 0 <= i < HISTORY_LIMIT ==> !Active(old500[i]) && old500[i].supersededBy.None? && old500[i].facet == Some(NOTES) && old500[i] !in Consolidation(text)
  {
    DroppedHistory.OldNotesCount(HISTORY_LIMIT);
  }

  lemma ConsolidationKept(text: string)
    ensures Normalize(Consolidation(text) + DroppedHistory.OldNotes(HISTORY_LIMIT)) == [Consolidation(text)[2]] + DroppedHistory.OldNotes(HISTORY_LIMIT)
  {
    var front, back := Consolidation(text), DroppedHistory.OldNotes(HISTORY_LIMIT);
    OldNotesApart(text);
    FilterConcat(front, back, e => !Active(e));
    FilterAll(back, e => !Active(e));
    FrontFiltered(text, e => !Active(e));
    assert LastN(front[..2] + back, HISTORY_LIMIT) == back;
    FilterConcat(front, back, e => Active(e) || e in back);
    FilterAll(back, e => Active(e) || e in back);
    FrontKept(text, e => Active(e) || e in back);
  }

  lemma FrontFiltered(text: string, p: Entry -> bool)
    requires var f := Consolidation(text); p(f[0]) && p(f[1]) && !p(f[2])
    ensures Filter(Consolidation(text), p) == Consolidation(text)[..2]
  {
    var f := Consolidation(text);
    assert f[..2][..1] == [f[0]] && [f[0]][..0] == [];
  }

  lemma FrontKept(text: string, p: Entry -> bool)
    requires var f := Consolidation(text); !p(f[0]) && !p(f[1]) && p(f[2])
    ensures Filter(Consolidation(text), p) == [Consolidation(text)[2]]
  {
    var f := Consolidation(text);
    FilterNone(f[..2], p);
  }

  /** It can happen: a consolidated note passes for a caller's once its two sources are beyond the history that is kept. */
  lemma HistoryRevealsANote(env: Env, text: string)
    ensures var s := Ledger(Consolidation(text) + DroppedHistory.OldNotes(HISTORY_LIMIT), map[]);
            Shown(env.lex, s) && BeginReveals(env, s)
  {
    hide Normalize;
    var front, back := Consolidation(text), DroppedHistory.OldNotes(HISTORY_LIMIT);
    var r := front + back;
    OldNotesApart(text);
    ConsolidationKept(text);
    PointersOfUnused(front, r, "c");
    TwoSources(text);
    PointersOfUnused([front[2]], [front[2]] + back, "c");
    OneUnlinked(front[2], "c");
    assert r[2] == front[2];
    assert Revealed(r, 2);
  }

  lemma TwoSources(text: string)
    ensures Pointers(Consolidation(text), "c") == 2
  {
    var f := Consolidation(text);
    assert f[..2] == [f[0], f[1]] && [f[0], f[1]][..1] == [f[0]] && [f[0]][..0] == [];
    assert Pointers([f[0]], "c") == 1;
    assert Pointers([f[0], f[1]], "c") == 2;
  }

  lemma OneUnlinked(e: Entry, id: Id)
    requires e.supersededBy.None?
    ensures Pointers([e], id) == 0
  {
    assert [e][..0] == [];
  }

  lemma NothingShown(env: Env)
    ensures Shown(env.lex, EMPTY)
  {
  }

  lemma RememberShownIff(env: Env, w: World, text: string, stamp: Stamp)
    requires Shown(env.lex, Latest(w)) && stamp.id !in Ids(Latest(w).registry)
    ensures Shown(env.lex, Remembered(env, w, text, stamp)) <==> !Displaces(env, w, Remember(text, stamp))
  {
    hide AddNote, Shown, NoteDisplaces;
    var keys := if w.snapshot.None? then {} else w.forgotten;
    NoteShownIff(env, Latest(w), text, stamp, keys);
    NoteReports(env, Latest(w), text, stamp, keys);
  }

  lemma TrackedTexts(env: Env, keys: set<Key>, s: seq<Entry>, p: seq<Entry>)
    requires Tracks(env, keys, s, p)
    ensures SameTexts(s, p)
  {
    forall i, j | 0 <= i < |s| && 0 <= j < |p| && s[i].id == p[j].id ensures s[i].content == p[j].content {
      assert TracksAt(env, keys, s, p, i, j);
    }
  }

  /** A step keeps every caller's note shown if and only if it displaces none. */
  lemma ShownStepIff(env: Env, w: World, step: Step)
    requires PackFits(env) && Sound(env, w) && Lawful(w, step) && InOrder(w) && ShownWorld(env, w)
    ensures ShownWorld(env, Apply(env, w, step)) <==> !Displaces(env, w, step)
  {
    hide AddNote, RetireForgotten, CarryOver, Perform, Normalize, Shown, NoteDisplaces, CommitLoses, JoinedEntries, BeginReveals, Ordered, Tracks, LinksTrack, Names;
    match step {
      case Remember(text, stamp) =>
        IdsNamed(Latest(w).registry);
        RememberShownIff(env, w, text, stamp);
      case Forget(key, now) =>
        if w.snapshot.Some? { ForgettingKeepsShown(env, w.snapshot.value, {key}, now); }
      case DigestBegin | RebuildBegin(_) =>
        BeginShownIff(env, Latest(w));
        NothingShown(env);
      case DigestStep(work) =>
        if w.flight.Some? {
          IdsNamed(w.flight.value.state.registry);
          WorkKeepsShown(env, w.flight.value.keys, w.flight.value.state, work);
        }
      case DigestCommit(now) =>
        if w.flight.Some? && w.snapshot.Some? {
          TrackedTexts(env, w.forgotten, w.snapshot.value.registry, w.flight.value.state.registry);
          CommitShownIff(env, w.flight.value.state, w.snapshot.value, w.forgotten, now);
        }
      case DigestAbort =>
    }
  }

  lemma {:induction false} OrderRun(env: Env, w: World, steps: seq<Step>)
    requires PackFits(env) && Sound(env, w) && LawfulRun(env, w, steps) && InOrder(w)
    ensures Sound(env, Run(env, w, steps)) && InOrder(Run(env, w, steps))
  {
    hide Sound, Lawful, Apply, InOrder;
    SoundRun(env, w, steps);
    if steps != [] {
      var n := |steps| - 1;
      LawfulPrefix(env, w, steps, n);
      OrderRun(env, w, steps[..n]);
      assert Lawful(Run(env, w, steps[..n]), steps[n]);
      OrderStep(env, Run(env, w, steps[..n]), steps[n]);
    }
  }

  lemma ShownStepAt(env: Env, w: World, steps: seq<Step>, n: nat)
    requires PackFits(env) && Sound(env, w) && LawfulRun(env, w, steps) && InOrder(w) && n < |steps|
    requires ShownWorld(env, Run(env, w, steps[..n]))
    ensures ShownWorld(env, Run(env, w, steps[..n + 1])) <==> !Displaces(env, Run(env, w, steps[..n]), steps[n])
  {
    hide Sound, Lawful, Apply, InOrder, ShownWorld, Displaces;
    LawfulPrefix(env, w, steps, n);
    OrderRun(env, w, steps[..n]);
    assert Lawful(Run(env, w, steps[..n]), steps[n]);
    assert steps[..n + 1][..n] == steps[..n];
    ShownStepIff(env, Run(env, w, steps[..n]), steps[n]);
  }

  lemma {:induction false} ShownSoFar(env: Env, w: World, steps: seq<Step>, n: nat)
    requires PackFits(env) && Sound(env, w) && LawfulRun(env, w, steps) && InOrder(w) && ShownWorld(env, w) && n <= |steps|
    requires forall k :: 0 <= k < n ==> !Displaces(env, Run(env, w, steps[..k]), steps[k])
    ensures ShownWorld(env, Run(env, w, steps[..n]))
  {
    hide Sound, Lawful, Apply, InOrder, ShownWorld, Displaces;
    if n > 0 {
      ShownSoFar(env, w, steps, n - 1);
      ShownStepAt(env, w, steps, n - 1);
    }
  }

  /** All along a run, every active caller's note holds a line if and only if no step displaces one. */
  lemma ShownRunIff(env: Env, w: World, steps: seq<Step>)
    requires PackFits(env) && Sound(env, w) && LawfulRun(env, w, steps) && InOrder(w) && ShownWorld(env, w)
    ensures (forall n :: 0 <= n <= |steps| ==> ShownWorld(env, Run(env, w, steps[..n])))
       <==> (forall n :: 0 <= n < |steps| ==> !Displaces(env, Run(env, w, steps[..n]), steps[n]))
  {
    hide Sound, Lawful, Apply, InOrder, ShownWorld, Displaces, Run;
    if forall n :: 0 <= n <= |steps| ==> ShownWorld(env, Run(env, w, steps[..n])) {
      forall n | 0 <= n < |steps| ensures !Displaces(env, Run(env, w, steps[..n]), steps[n]) {
        assert ShownWorld(env, Run(env, w, steps[..n + 1]));
        ShownStepAt(env, w, steps, n);
      }
    }
    if forall n :: 0 <= n < |steps| ==> !Displaces(env, Run(env, w, steps[..n]), steps[n]) {
      forall n | 0 <= n <= |steps| ensures ShownWorld(env, Run(env, w, steps[..n])) {
        ShownSoFar(env, w, steps, n);
      }
    }
  }

  // ---------------------------------------------------------------- no note is lost, nor its line

  /** The commit leaves the note at `k` active and without a line, judged by the two ledgers it joins. */
  predicate LosesAt(env: Env, w: World, now: nat, k: nat)
    requires w.flight.Some? && w.snapshot.Some?
  {
    CommitLoses(env, w.flight.value.state, w.snapshot.value.registry, w.forgotten, now, k)
  }

  lemma CommitLosesAt(env: Env, w: World, now: nat, k: nat)
    requires Sound(env, w) && InOrder(w) && w.flight.Some? && w.snapshot.Some?
    requires k < |Committed(env, w, w.flight.value.state, now).registry|
    ensures var s' := Committed(env, w, w.flight.value.state, now);
            Lineless(env.lex, s'.registry, Lines(s', NOTES), k) <==> LosesAt(env, w, now, k)
  {
    hide CarryOver, CommitLoses, Tracks, LinksTrack, Ordered, Lineless;
    TrackedTexts(env, w.forgotten, w.snapshot.value.registry, w.flight.value.state.registry);
    CommitLosesIff(env, w.flight.value.state, w.snapshot.value, w.forgotten, now, k);
  }

  lemma OrderRunFromStart(env: Env, w: World, steps: seq<Step>)
    requires PackFits(env) && Start(w) && LawfulRun(env, w, steps)
    ensures Sound(env, Run(env, w, steps)) && InOrder(Run(env, w, steps))
  {
    OrderRun(env, w, steps);
  }

  /** In every run, whenever a digest commits, every caller's note survives, and keeps a line exactly where the commit does not lose it. */
  lemma NoNoteLosesItsLine(env: Env, w: World, steps: seq<Step>, now: nat)
    requires PackFits(env) && Start(w) && LawfulRun(env, w, steps)
    ensures var before, after := Run(env, w, steps), Run(env, w, steps + [DigestCommit(now)]);
            before.flight.Some? && before.snapshot.Some? ==>
              && after.snapshot.Some?
              && var s, s' := before.snapshot.value.registry, after.snapshot.value;
                 && (forall i :: 0 <= i < |s| && HeldNote(s, i) && !NoteForgotten(env, before.forgotten, s[i].content)
                       ==> Survives(s[i], s'.registry, Crowded(env, Carried(env, before, now)), now))
                 && (forall k :: 0 <= k < |s'.registry| && HeldNote(s'.registry, k)
                       ==> (HasLine(env.lex, Lines(s', NOTES), s'.registry[k].content) <==> !LosesAt(env, before, now, k)))
  {
    hide Run, Apply, Sound, InOrder, Committed, LosesAt, Survives, Crowded, Carried, HeldNote, Lines, HeldNote, HasLine, LawfulRun, Start, PackFits;
    var before := Run(env, w, steps);
    OrderRunFromStart(env, w, steps);
    NoNoteIsLost(env, w, steps, now);
    CommitRun(env, w, steps, now);
    if before.flight.Some? && before.snapshot.Some? {
      var s' := Committed(env, before, before.flight.value.state, now);
      forall k | 0 <= k < |s'.registry| ensures Lineless(env.lex, s'.registry, Lines(s', NOTES), k) <==> LosesAt(env, before, now, k) {
        CommitLosesAt(env, before, now, k);
      }
    }
  }
}
