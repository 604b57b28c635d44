/**
 * A digest run's effect on the ledger, as a list of steps taken with arbitrary model output, and
 * the guarantee all of them give: a caller's note is never touched.
 */
module DigestWork {
  import opened Options
  import opened Seqs
  import opened FactRegistry
  import opened RegistryLaws
  import opened MemoryFacts
  import opened DigestFacts
  import opened FacetConsolidation

  datatype Work =
    | Promoted(content: string, kind: Kind, confidence: real, ev: Evidence, id: Id, now: nat)
    | Routed(evt: RoutedEvent, previous: set<Id>, id: Id, now: nat)
    | Extracted(fact: ProposedFact, from: Sources, id: Id, now: nat)
    | Consolidated(facet: string, items: seq<string>, result: seq<Merged>, now: nat)
    | Pruned(now: nat)

  function ResultIds(result: seq<Merged>): set<Id> {
    set m | m in result :: m.id
  }

  function WorkIds(w: Work): set<Id> {
    match w
    case Consolidated(_, _, result, _) => ResultIds(result)
    case Pruned(_) => {}
    case _ => {w.id}
  }

  /** One step of the pipeline on its in-memory ledger; `keys` are the forgotten keys it read at the start. */
  function Perform(env: Env, keys: set<Key>, s: Ledger, w: Work): Ledger {
    match w
    case Promoted(content, kind, confidence, ev, id, now) => Promote(env.lex, s, content, kind, confidence, ev, id, None, now, [])
    case Routed(evt, previous, id, now) => RouteEvent(env, s, evt, previous, id, now).state
    case Extracted(fact, from, id, now) => ApplyFact(env, s, fact, from, id, now).state
    case Consolidated(facet, items, result, now) => ApplyConsolidation(env.lex, s, facet, items, result, now).state
    case Pruned(now) => PruneForgotten(env, env.defaultPack, s, keys, now)
  }

  // ---------------------------------------------------------------- growth

  lemma LinkedGrows(lex: Lexicon, s: Ledger, facet: string, line: string, value: string, news: bool, entities: seq<string>, ev: Option<Evidence>, id: Id, now: nat)
    ensures Grows(s.registry, Linked(lex, s, facet, line, value, news, entities, ev, id, now).registry, {id})
    ensures Linked(lex, s, facet, line, value, news, entities, ev, id, now).profile == s.profile
  {
  }

  lemma RestateGrows(env: Env, s: Ledger, facet: string, i: nat, value: string, entities: seq<string>, ev: Option<Evidence>, id: Id, now: nat)
    requires i < |Lines(s, facet)|
    ensures Grows(s.registry, Restate(env, s, facet, i, value, entities, ev, id, now).state.registry, {id})
  {
    var line := Lines(s, facet)[i];
    LinkedGrows(env.lex, s, facet, line, value, true, entities, ev, id, now);
    LinkedGrows(env.lex, s, facet, line, value, false, entities, ev, id, now);
  }

  lemma PushFactGrows(lex: Lexicon, s: Ledger, facet: string, value: string, entities: seq<string>, ev: Option<Evidence>, id: Id, now: nat)
    ensures Grows(s.registry, PushFact(lex, s, facet, value, entities, ev, id, now).registry, {id})
  {
  }

  lemma SameGrows(r: seq<Entry>, issued: set<Id>)
    ensures Grows(r, r, issued)
  {
  }

  lemma RetireFactGrows(lex: Lexicon, s: Ledger, content: string, reason: Reason, now: nat, facet: string, exact: bool, spareCallers: bool)
    ensures Grows(s.registry, RetireFact(lex, s, content, reason, now, facet, exact, spareCallers).registry, {})
  {
  }

  lemma AppendGrows(env: Env, s: Ledger, facet: string, value: string, entities: seq<string>, ev: Option<Evidence>, id: Id, now: nat)
    ensures Grows(s.registry, Append(env, s, facet, value, entities, ev, id, now).state.registry, {id})
  {
    SameGrows(s.registry, {id});
    hide PushFact, DigestLine, RetireFact, Grows;
    var lines := Lines(s, facet);
    if |lines| < env.pack.cap(facet) {
      PushFactGrows(env.lex, s, facet, value, entities, ev, id, now);
    } else {
      var i := DigestLine(env.lex, s.registry, facet, lines);
      if !env.pack.writeProtected(facet) && i < |lines| {
        var room := SetLines(s, facet, RemoveAt(lines, i));
        var retired := RetireFact(env.lex, room, lines[i], CapEvicted, now, facet, false, true);
        PushFactGrows(env.lex, room, facet, value, entities, ev, id, now);
        PushFactGrows(env.lex, retired, facet, value, entities, ev, id, now);
        RetireFactGrows(env.lex, room, lines[i], CapEvicted, now, facet, false, true);
        GrowsTwice(s.registry, retired.registry, PushFact(env.lex, retired, facet, value, entities, ev, id, now).registry, {}, {id});
        assert {} + {id} == {id};
      }
    }
  }

  lemma ApplyFactGrows(env: Env, s: Ledger, fact: ProposedFact, from: Sources, id: Id, now: nat)
    ensures Grows(s.registry, ApplyFact(env, s, fact, from, id, now).state.registry, {id})
  {
    SameGrows(s.registry, {id});
    hide Restate, Append, SameLine, FactSized, Grows;
    var facet := env.lex.trim(fact.facet);
    var value := env.lex.stripIds(env.lex.trim(fact.value));
    var ev := EvidenceFor(env.pack, facet, from);
    var ready := WithFacet(s, facet);
    var i := SameLine(env.lex, Lines(ready, facet), value);
    if i < |Lines(ready, facet)| {
      RestateGrows(env, ready, facet, i, value, fact.entities, ev, id, now);
    }
    AppendGrows(env, ready, facet, value, fact.entities, ev, id, now);
  }

  lemma PushRoutedGrows(lex: Lexicon, s: Ledger, facet: string, protect: bool, value: string, eventId: Id, id: Id, now: nat)
    ensures Grows(s.registry, PushRouted(lex, s, facet, protect, value, eventId, id, now).registry, {id})
  {
  }

  lemma RouteFactGrows(env: Env, s: Ledger, facet: string, value: string, eventId: Id, previous: set<Id>, id: Id, now: nat)
    ensures Grows(s.registry, RouteFact(env, s, facet, value, eventId, previous, id, now).state.registry, {id})
  {
    var lines := Lines(s, facet);
    var protect := env.pack.writeProtected(facet);
    PushRoutedGrows(env.lex, s, facet, protect, value, eventId, id, now);
    var j := if protect then UnprotectedLine(env.lex, s.registry, previous, facet, lines) else 0;
    if j < |lines| {
      PushRoutedGrows(env.lex, SetLines(s, facet, RemoveAt(lines, j)), facet, protect, value, eventId, id, now);
    }
  }

  lemma ConsolidationGrows(lex: Lexicon, s: Ledger, facet: string, items: seq<string>, result: seq<Merged>, now: nat)
    ensures Grows(s.registry, ApplyConsolidation(lex, s, facet, items, result, now).state.registry, ResultIds(result))
  {
    hide Acceptable, RelinkAll, NewEntries, Relink, ConsolidatedEntry, MatchedSources, Interleave, Texts, ResultIds;
    if Acceptable(items, result) {
      var r := s.registry;
      var r' := RelinkAll(lex, r, facet, items, result, now);
      var more := NewEntries(lex, r, facet, items, result, now);
      var r'' := r' + more;
      forall i | 0 <= i < |r|
        ensures Evolves(r[i], r''[i])
        ensures r''[i].supersededBy.Some? && r[i].supersededBy.None? ==> r''[i].supersededBy.value in ResultIds(result)
      {
        RelinkEvolves(lex, r, facet, items, result, now, r[i]);
        assert r''[i] == r'[i];
      }
      forall i | |r| <= i < |r''| ensures r''[i].id in ResultIds(result) && r''[i].supersededBy.None? {
        NewEntryIssued(lex, r, facet, items, result, now, i - |r|);
        assert r''[i] == more[i - |r|];
      }
    }
  }

  lemma RelinkEvolves(lex: Lexicon, r: seq<Entry>, facet: string, items: seq<string>, result: seq<Merged>, now: nat, e: Entry)
    ensures var e' := Relink(lex, r, facet, items, result, now, e);
            && Evolves(e, e')
            && (e'.supersededBy.Some? && e.supersededBy.None? ==> e'.supersededBy.value in ResultIds(result))
  {
    hide Replacement, ResultIds;
    ReplacementIssued(lex, r, facet, items, result, e.id);
  }

  lemma NewEntryIssued(lex: Lexicon, r: seq<Entry>, facet: string, items: seq<string>, result: seq<Merged>, now: nat, k: nat)
    requires k < |result|
    ensures var e := NewEntries(lex, r, facet, items, result, now)[k];
            e.id == result[k].id && e.id in ResultIds(result) && e.supersededBy.None?
  {
    assert NewEntries(lex, r, facet, items, result, now)[k].id == result[k].id;
  }

  lemma {:induction false} ReplacementIssued(lex: Lexicon, r: seq<Entry>, facet: string, items: seq<string>, result: seq<Merged>, id: Id)
    ensures var to := Replacement(lex, r, facet, items, result, id);
            to.Some? ==> to.value in ResultIds(result)
  {
    if result != [] {
      ReplacementIssued(lex, r, facet, items, result[..|result| - 1], id);
    }
  }

  lemma WorkGrows(env: Env, keys: set<Key>, s: Ledger, w: Work)
    ensures Grows(s.registry, Perform(env, keys, s, w).registry, WorkIds(w))
  {
    hide ApplyFact, RouteFact, ApplyConsolidation;
    match w {
      case Promoted(content, kind, confidence, ev, id, now) =>
      case Routed(evt, previous, id, now) =>
        var route := env.pack.route(evt.classifiedType);
        if route.Some? {
          RouteFactGrows(env, WithFacet(s, route.value), route.value, env.lex.trim(evt.content), evt.id, previous, id, now);
        }
      case Extracted(fact, from, id, now) => ApplyFactGrows(env, s, fact, from, id, now);
      case Consolidated(facet, items, result, now) => ConsolidationGrows(env.lex, s, facet, items, result, now);
      case Pruned(now) =>
    }
  }

  lemma ExtractedAddsOne(env: Env, s: Ledger, fact: ProposedFact, from: Sources, id: Id, now: nat)
    ensures |ApplyFact(env, s, fact, from, id, now).state.registry| <= |s.registry| + 1
  {
    var facet := env.lex.trim(fact.facet);
    var value := env.lex.stripIds(env.lex.trim(fact.value));
    var ev := EvidenceFor(env.pack, facet, from);
    var ready := WithFacet(s, facet);
    var i := SameLine(env.lex, Lines(ready, facet), value);
    if i < |Lines(ready, facet)| {
      RestateAddsOne(env, ready, facet, i, value, fact.entities, ev, id, now);
    }
    AppendAddsOne(env, ready, facet, value, fact.entities, ev, id, now);
  }

  lemma RestateAddsOne(env: Env, s: Ledger, facet: string, i: nat, value: string, entities: seq<string>, ev: Option<Evidence>, id: Id, now: nat)
    requires i < |Lines(s, facet)|
    ensures |Restate(env, s, facet, i, value, entities, ev, id, now).state.registry| <= |s.registry| + 1
  {
  }

  lemma AppendAddsOne(env: Env, s: Ledger, facet: string, value: string, entities: seq<string>, ev: Option<Evidence>, id: Id, now: nat)
    ensures |Append(env, s, facet, value, entities, ev, id, now).state.registry| <= |s.registry| + 1
  {
  }

  /** Ids stay unique through a step that draws new, distinct ones. */
  lemma WorkUnique(env: Env, keys: set<Key>, s: Ledger, w: Work)
    requires UniqueIds(s.registry) && Ids(s.registry) !! WorkIds(w)
    requires w.Consolidated? ==> forall i, j :: 0 <= i < j < |w.result| ==> w.result[i].id != w.result[j].id
    ensures UniqueIds(Perform(env, keys, s, w).registry)
  {
    hide ApplyFact, RouteEvent, Promote, PruneForgotten;
    WorkGrows(env, keys, s, w);
    match w {
      case Promoted(_, _, _, _, _, _) => OneWorkUnique(env, keys, s, w);
      case Routed(_, _, _, _) => OneWorkUnique(env, keys, s, w);
      case Extracted(_, _, _, _) => OneWorkUnique(env, keys, s, w);
      case Consolidated(facet, items, result, now) => ConsolidatedUnique(env.lex, s, facet, items, result, now);
      case Pruned(_) => OneWorkUnique(env, keys, s, w);
    }
  }

  lemma OneWorkUnique(env: Env, keys: set<Key>, s: Ledger, w: Work)
    requires !w.Consolidated? && UniqueIds(s.registry) && Ids(s.registry) !! WorkIds(w)
    requires Grows(s.registry, Perform(env, keys, s, w).registry, WorkIds(w))
    ensures UniqueIds(Perform(env, keys, s, w).registry)
  {
    OneWorkAddsOne(env, keys, s, w);
    hide Perform, Grows;
    UniqueAfterOne(s.registry, Perform(env, keys, s, w).registry, WorkIds(w));
  }

  lemma RoutedAddsOne(env: Env, s: Ledger, evt: RoutedEvent, previous: set<Id>, id: Id, now: nat)
    ensures |RouteEvent(env, s, evt, previous, id, now).state.registry| <= |s.registry| + 1
  {
    hide SameLine, UnprotectedLine, ProtectedLine, RemoveAt, FactSized, InRegistry;
  }

  lemma OneWorkAddsOne(env: Env, keys: set<Key>, s: Ledger, w: Work)
    requires !w.Consolidated?
    ensures |Perform(env, keys, s, w).registry| <= |s.registry| + 1
  {
    hide RouteEvent, ApplyFact, InRegistry, FactSized;
    match w {
      case Promoted(_, _, _, _, _, _) =>
      case Routed(evt, previous, id, now) => RoutedAddsOne(env, s, evt, previous, id, now);
      case Extracted(fact, from, id, now) => ExtractedAddsOne(env, s, fact, from, id, now);
      case Pruned(_) =>
    }
  }

  lemma ConsolidatedUnique(lex: Lexicon, s: Ledger, facet: string, items: seq<string>, result: seq<Merged>, now: nat)
    requires UniqueIds(s.registry) && Ids(s.registry) !! ResultIds(result)
    requires forall i, j :: 0 <= i < j < |result| ==> result[i].id != result[j].id
    ensures UniqueIds(ApplyConsolidation(lex, s, facet, items, result, now).state.registry)
  {
    hide *;
    if Acceptable(items, result) {
      var r, r' := s.registry, ApplyConsolidation(lex, s, facet, items, result, now).state.registry;
      ConsolidationGrows(lex, s, facet, items, result, now);
      ConsolidatedParts(lex, s, facet, items, result, now);
      forall i, j | |r| <= i < j < |r'| ensures r'[i].id != r'[j].id {
        ConsolidatedId(lex, s, facet, items, result, now, i - |r|);
        ConsolidatedId(lex, s, facet, items, result, now, j - |r|);
      }
      UniqueAfterGrowth(r, r', ResultIds(result));
    } else {
      ConsolidationRefused(lex, s, facet, items, result, now);
    }
  }

  lemma ConsolidationRefused(lex: Lexicon, s: Ledger, facet: string, items: seq<string>, result: seq<Merged>, now: nat)
    requires !Acceptable(items, result)
    ensures ApplyConsolidation(lex, s, facet, items, result, now).state == s
  {
  }

  lemma ConsolidatedId(lex: Lexicon, s: Ledger, facet: string, items: seq<string>, result: seq<Merged>, now: nat, k: nat)
    requires Acceptable(items, result) && k < |result|
    ensures var r' := ApplyConsolidation(lex, s, facet, items, result, now).state.registry;
            |r'| == |s.registry| + |result| && r'[|s.registry| + k].id == result[k].id
  {
    hide *;
    ConsolidatedParts(lex, s, facet, items, result, now);
    NewEntryIssued(lex, s.registry, facet, items, result, now, k);
    AppendedAt(RelinkAll(lex, s.registry, facet, items, result, now), NewEntries(lex, s.registry, facet, items, result, now), k);
  }

  lemma AppendedAt(linked: seq<Entry>, more: seq<Entry>, k: nat)
    requires k < |more|
    ensures (linked + more)[|linked| + k] == more[k]
  {
  }

  lemma ConsolidatedParts(lex: Lexicon, s: Ledger, facet: string, items: seq<string>, result: seq<Merged>, now: nat)
    requires Acceptable(items, result)
    ensures ApplyConsolidation(lex, s, facet, items, result, now).state.registry
         == RelinkAll(lex, s.registry, facet, items, result, now) + NewEntries(lex, s.registry, facet, items, result, now)
  {
    hide HasCallerNotes, Interleave, Texts, RelinkAll, NewEntries, Acceptable;
  }

  // ---------------------------------------------------------------- caller notes

  /** Not among the forgotten keys the run prunes by. */
  predicate Shielded(env: Env, keys: set<Key>, e: Entry) {
    !KeyedIn(env.lex, env.defaultPack.group(NOTES), keys, e.content)
  }

  /** The caller's note at index `i` is untouched: same entry, still a caller's, lines still there. */
  predicate KeepsNote(lex: Lexicon, s: Ledger, s': Ledger, i: nat)
    requires i < |s.registry|
  {
    && i < |s'.registry| && s'.registry[i] == s.registry[i]
    && IsCallerNote(s.registry[i], s'.registry)
    && forall t :: t in Lines(s, NOTES) && lex.canon(t) == lex.canon(s.registry[i].content) ==> t in Lines(s', NOTES)
  }

  predicate KeepsNotes(env: Env, keys: set<Key>, s: Ledger, s': Ledger) {
    forall i :: 0 <= i < |s.registry| && HeldNote(s.registry, i) && Shielded(env, keys, s.registry[i]) ==> KeepsNote(env.lex, s, s', i)
  }

  /** Every line that backs a caller's note is still there. */
  predicate KeepsCallerLines(lex: Lexicon, s: Ledger, s': Ledger) {
    forall t :: t in Lines(s, NOTES) && IsCallerNoteText(lex, s.registry, NOTES, t) ==> t in Lines(s', NOTES)
  }

  /** No caller's entry changed. */
  predicate KeepsCallerEntries(s: Ledger, s': Ledger) {
    && |s.registry| <= |s'.registry|
    && forall i :: 0 <= i < |s.registry| && IsCallerNote(s.registry[i], s.registry) ==> s'.registry[i] == s.registry[i]
  }

  lemma FromCallerLines(env: Env, keys: set<Key>, s: Ledger, s': Ledger, issued: set<Id>)
    requires Grows(s.registry, s'.registry, issued) && Ids(s.registry) !! issued
    requires KeepsCallerEntries(s, s') && KeepsCallerLines(env.lex, s, s')
    ensures KeepsNotes(env, keys, s, s')
  {
    forall i | 0 <= i < |s.registry| && HeldNote(s.registry, i) && Shielded(env, keys, s.registry[i])
      ensures KeepsNote(env.lex, s, s', i)
    {
      assert s.registry[i] in s.registry && s.registry[i].id in Ids(s.registry);
      CallerStable(s.registry, s'.registry, issued, s.registry[i]);
      forall t | t in Lines(s, NOTES) && env.lex.canon(t) == env.lex.canon(s.registry[i].content) ensures t in Lines(s', NOTES) {
        assert BackedByCaller(env.lex, s.registry, NOTES, t, i);
      }
    }
  }

  lemma KeepsNotesTwice(env: Env, keys: set<Key>, a: Ledger, b: Ledger, c: Ledger)
    requires KeepsNotes(env, keys, a, b) && KeepsNotes(env, keys, b, c)
    ensures KeepsNotes(env, keys, a, c)
  {
    forall i | 0 <= i < |a.registry| && HeldNote(a.registry, i) && Shielded(env, keys, a.registry[i])
      ensures KeepsNote(env.lex, a, c, i)
    {
      assert KeepsNote(env.lex, a, b, i);
      assert HeldNote(b.registry, i);
      assert KeepsNote(env.lex, b, c, i);
    }
  }

  lemma RestateKeepsCallers(env: Env, s: Ledger, facet: string, i: nat, value: string, entities: seq<string>, ev: Option<Evidence>, id: Id, now: nat)
    requires i < |Lines(s, facet)|
    ensures var s' := Restate(env, s, facet, i, value, entities, ev, id, now).state;
            KeepsCallerEntries(s, s') && KeepsCallerLines(env.lex, s, s')
  {
    var lines := Lines(s, facet);
    var s' := Restate(env, s, facet, i, value, entities, ev, id, now).state;
    if !IsCallerNoteText(env.lex, s.registry, facet, lines[i]) {
      LinkedKeepsCallers(env.lex, s, facet, lines[i], value, true, entities, ev, id, now);
      LinkedKeepsCallers(env.lex, s, facet, lines[i], value, false, entities, ev, id, now);
      if facet == NOTES {
        forall t | t in lines && IsCallerNoteText(env.lex, s.registry, NOTES, t) ensures t in lines[i := value] {
          var k :| 0 <= k < |lines| && lines[k] == t;
          assert lines[i := value][k] == t;
        }
      }
    }
  }

  lemma LinkedKeepsCallers(lex: Lexicon, s: Ledger, facet: string, line: string, value: string, news: bool, entities: seq<string>, ev: Option<Evidence>, id: Id, now: nat)
    ensures KeepsCallerEntries(s, Linked(lex, s, facet, line, value, news, entities, ev, id, now))
    ensures Linked(lex, s, facet, line, value, news, entities, ev, id, now).profile == s.profile
  {
  }

  lemma AppendKeepsCallers(env: Env, s: Ledger, facet: string, value: string, entities: seq<string>, ev: Option<Evidence>, id: Id, now: nat)
    ensures var s' := Append(env, s, facet, value, entities, ev, id, now).state;
            KeepsCallerEntries(s, s') && KeepsCallerLines(env.lex, s, s')
  {
    hide PushFact, DigestLine, IsCallerNote;
    var lines := Lines(s, facet);
    if |lines| < env.pack.cap(facet) {
      PushFactKeeps(env.lex, s, facet, value, entities, ev, id, now);
    } else {
      var i := DigestLine(env.lex, s.registry, facet, lines);
      if !env.pack.writeProtected(facet) && i < |lines| {
        var room := SetLines(s, facet, RemoveAt(lines, i));
        var retired := RetireFact(env.lex, room, lines[i], CapEvicted, now, facet, false, true);
        PushFactKeeps(env.lex, room, facet, value, entities, ev, id, now);
        PushFactKeeps(env.lex, retired, facet, value, entities, ev, id, now);
        assert KeepsCallerEntries(s, retired);
        assert KeepsCallerLines(env.lex, s, room);
      }
    }
  }

  lemma PushFactKeeps(lex: Lexicon, s: Ledger, facet: string, value: string, entities: seq<string>, ev: Option<Evidence>, id: Id, now: nat)
    ensures var s' := PushFact(lex, s, facet, value, entities, ev, id, now);
            && s.registry <= s'.registry
            && Lines(s', facet) == Lines(s, facet) + [value]
            && forall f :: f != facet ==> Lines(s', f) == Lines(s, f)
  {
  }

  lemma ExtractedKeepsCallers(env: Env, s: Ledger, fact: ProposedFact, from: Sources, id: Id, now: nat)
    ensures var s' := ApplyFact(env, s, fact, from, id, now).state;
            KeepsCallerEntries(s, s') && KeepsCallerLines(env.lex, s, s')
  {
    hide Restate, Append, SameLine, FactSized, IsCallerNote;
    var facet := env.lex.trim(fact.facet);
    var value := env.lex.stripIds(env.lex.trim(fact.value));
    var ev := EvidenceFor(env.pack, facet, from);
    var ready := WithFacet(s, facet);
    assert Lines(ready, NOTES) == Lines(s, NOTES);
    var i := SameLine(env.lex, Lines(ready, facet), value);
    if i < |Lines(ready, facet)| {
      RestateKeepsCallers(env, ready, facet, i, value, fact.entities, ev, id, now);
    }
    AppendKeepsCallers(env, ready, facet, value, fact.entities, ev, id, now);
  }

  /** The pack routes no event type to the notes. */
  ghost predicate NotesUnrouted(pack: Pack) {
    forall t :: pack.route(t) != Some(NOTES)
  }

  lemma RoutedKeepsCallers(env: Env, s: Ledger, facet: string, value: string, eventId: Id, previous: set<Id>, id: Id, now: nat)
    requires facet != NOTES
    ensures var s' := RouteFact(env, s, facet, value, eventId, previous, id, now).state;
            s.registry <= s'.registry && Lines(s', NOTES) == Lines(s, NOTES)
  {
    hide RemoveAt, SameLine, UnprotectedLine, ProtectedLine, PushRouted;
    var lines := Lines(s, facet);
    var protect := env.pack.writeProtected(facet);
    PushRoutedKeeps(env.lex, s, facet, protect, value, eventId, id, now);
    var j := if protect then UnprotectedLine(env.lex, s.registry, previous, facet, lines) else 0;
    if j < |lines| {
      PushRoutedKeeps(env.lex, SetLines(s, facet, RemoveAt(lines, j)), facet, protect, value, eventId, id, now);
    }
  }

  lemma PushRoutedKeeps(lex: Lexicon, s: Ledger, facet: string, protect: bool, value: string, eventId: Id, id: Id, now: nat)
    ensures var s' := PushRouted(lex, s, facet, protect, value, eventId, id, now);
            s.registry <= s'.registry && forall f :: f != facet ==> Lines(s', f) == Lines(s, f)
  {
  }

  lemma ConsolidatedKeepsCallers(lex: Lexicon, s: Ledger, facet: string, items: seq<string>, result: seq<Merged>, now: nat)
    ensures var s' := ApplyConsolidation(lex, s, facet, items, result, now).state;
            KeepsCallerEntries(s, s') && KeepsCallerLines(lex, s, s')
  {
    var r := s.registry;
    var lines := Lines(s, facet);
    if Acceptable(items, result) && facet == NOTES {
      var i := First(lines, t => !IsCallerNoteText(lex, r, facet, t));
      forall t | t in lines && IsCallerNoteText(lex, r, NOTES, t)
        ensures HasCallerNotes(r, facet) && t in Interleave(lex, r, facet, lines, Texts(result))
      {
        var j :| 0 <= j < |r| && BackedByCaller(lex, r, NOTES, t, j);
        assert r[j] in r;
        var k :| 0 <= k < |lines| && lines[k] == t;
        if k < i {
          assert lines[..i][k] == t;
        } else {
          assert lines[i..][k - i] == t;
        }
      }
    }
  }

  lemma PrunedKeepsNotes(env: Env, keys: set<Key>, s: Ledger, now: nat)
    ensures KeepsNotes(env, keys, s, PruneForgotten(env, env.defaultPack, s, keys, now))
  {
    var s' := PruneForgotten(env, env.defaultPack, s, keys, now);
    forall i | 0 <= i < |s.registry| && HeldNote(s.registry, i) && Shielded(env, keys, s.registry[i])
      ensures KeepsNote(env.lex, s, s', i)
    {
      assert Grows(s.registry, s'.registry, {});
      CallerStable(s.registry, s'.registry, {}, s.registry[i]);
    }
  }

  /** No step of a digest, whatever its model said, touches a caller's note that is not forgotten. */
  lemma WorkKeepsNotes(env: Env, keys: set<Key>, s: Ledger, w: Work)
    requires NotesUnrouted(env.pack)
    requires Ids(s.registry) !! WorkIds(w)
    ensures KeepsNotes(env, keys, s, Perform(env, keys, s, w))
  {
    hide ApplyFact, ApplyConsolidation, RouteFact, KeepsNotes, IsCallerNote, Grows;
    var s' := Perform(env, keys, s, w);
    WorkGrows(env, keys, s, w);
    match w {
      case Promoted(_, _, _, _, _, _) =>
        FromCallerLines(env, keys, s, s', WorkIds(w));
      case Routed(evt, previous, id, now) =>
        var route := env.pack.route(evt.classifiedType);
        if route.Some? {
          RoutedKeepsCallers(env, WithFacet(s, route.value), route.value, env.lex.trim(evt.content), evt.id, previous, id, now);
        }
        FromCallerLines(env, keys, s, s', WorkIds(w));
      case Extracted(fact, from, id, now) =>
        ExtractedKeepsCallers(env, s, fact, from, id, now);
        FromCallerLines(env, keys, s, s', WorkIds(w));
      case Consolidated(facet, items, result, now) =>
        ConsolidatedKeepsCallers(env.lex, s, facet, items, result, now);
        FromCallerLines(env, keys, s, s', WorkIds(w));
      case Pruned(now) =>
        PrunedKeepsNotes(env, keys, s, now);
    }
  }

  // ---------------------------------------------------------------- a whole digest

  function PerformAll(env: Env, keys: set<Key>, s: Ledger, works: seq<Work>): Ledger {
    if works == [] then s
    else Perform(env, keys, PerformAll(env, keys, s, works[..|works| - 1]), works[|works| - 1])
  }

  /** Every id a list of steps draws. */
  function DrawnIds(works: seq<Work>): set<Id> {
    if works == [] then {} else DrawnIds(works[..|works| - 1]) + WorkIds(works[|works| - 1])
  }

  /** No step draws an id in use or drawn before. */
  predicate FreshDraws(r: seq<Entry>, works: seq<Work>) {
    works == [] ||
    (var n := |works| - 1;
     FreshDraws(r, works[..n]) && WorkIds(works[n]) !! Ids(r) + DrawnIds(works[..n]))
  }

  /** A digest of any length appends entries with ids it drew and leaves caller notes as they were. */
  lemma {:induction false} DigestKeepsNotes(env: Env, keys: set<Key>, s: Ledger, works: seq<Work>)
    requires NotesUnrouted(env.pack) && FreshDraws(s.registry, works)
    ensures Grows(s.registry, PerformAll(env, keys, s, works).registry, DrawnIds(works))
    ensures KeepsNotes(env, keys, s, PerformAll(env, keys, s, works))
  {
    hide Perform, Grows, KeepsNotes;
    if works == [] {
      SameGrows(s.registry, {});
      SameKeepsNotes(env, keys, s);
    } else {
      var n := |works| - 1;
      var before := PerformAll(env, keys, s, works[..n]);
      DigestKeepsNotes(env, keys, s, works[..n]);
      IdsAfterGrowth(s.registry, before.registry, DrawnIds(works[..n]));
      WorkGrows(env, keys, before, works[n]);
      WorkKeepsNotes(env, keys, before, works[n]);
      GrowsTwice(s.registry, before.registry, Perform(env, keys, before, works[n]).registry, DrawnIds(works[..n]), WorkIds(works[n]));
      KeepsNotesTwice(env, keys, s, before, Perform(env, keys, before, works[n]));
    }
  }

  lemma SameKeepsNotes(env: Env, keys: set<Key>, s: Ledger)
    ensures KeepsNotes(env, keys, s, s)
  {
  }

  lemma IdsAfterGrowth(r: seq<Entry>, r': seq<Entry>, issued: set<Id>)
    requires Grows(r, r', issued)
    ensures Ids(r') <= Ids(r) + issued
  {
    forall x | x in Ids(r') ensures x in Ids(r) + issued {
      var i :| 0 <= i < |r'| && r'[i].id == x;
      if i < |r| { assert Evolves(r[i], r'[i]) && r[i] in r; }
    }
  }
}
