/** The digest's writers as they run, in place, each proved to compute the function that specifies it. */
module DigestWrites {
  import opened Options
  import opened Seqs
  import opened FactRegistry
  import opened RegistryLaws
  import opened DigestFacts
  import opened FacetConsolidation
  import opened DigestWork
  import opened Handoff
  import opened LedgerWrites

  // ---------------------------------------------------------------- proposed facts

  /** The body of the loop for a fact that restates line `i`. */
  method RestateFact(env: Env, state: DigestState, facet: string, i: nat, value: string, entities: seq<string>, ev: Option<Evidence>, id: Id, now: nat) returns (drops: seq<Drop>)
    requires facet in state.profile && i < |state.profile[facet]|
    modifies state
    ensures FactResult(state.Value(), drops) == Restate(env, old(state.Value()), facet, i, value, entities, ev, id, now)
  {
    var lex := env.lex;
    drops := [];
    var lines := state.profile[facet];
    var existing := lines[i];
    var contentChanged := lex.trim(existing) != lex.trim(value);
    if IsCallerNoteText(lex, state.registry, facet, existing) {
      if contentChanged { drops := [Drop(ProtectedLowerAuthority, facet, value)]; }
      return;
    }
    var authority := Authority(ev);
    var a := AuthorityIndex(lex, state.registry, existing);
    var known := a < |state.registry|;
    if env.pack.writeProtected(facet) && known && authority < state.registry[a].confidence {
      drops := [Drop(ProtectedLowerAuthority, facet, value)];
      return;
    }
    if ev.Some? {
      var authorityIncreased := known && authority > state.registry[a].confidence;
      if contentChanged || authorityIncreased {
        SupersedeFact(lex, state, existing, value, ev.value, id, facet, authority, entities, now);
      }
    }
    if contentChanged {
      state.profile := state.profile[facet := lines[i := value]];
    }
  }

  /** The body of the loop for a fact no line states. */
  method AppendFact(env: Env, state: DigestState, facet: string, value: string, entities: seq<string>, ev: Option<Evidence>, id: Id, now: nat) returns (drops: seq<Drop>)
    requires facet in state.profile
    modifies state
    ensures FactResult(state.Value(), drops) == Append(env, old(state.Value()), facet, value, entities, ev, id, now)
  {
    var lex := env.lex;
    drops := [];
    var lines := state.profile[facet];
    if |lines| >= env.pack.cap(facet) {
      if env.pack.writeProtected(facet) {
        drops := [Drop(CapRejectedIncoming, facet, value)];
        return;
      }
      var i := DigestLine(lex, state.registry, facet, lines);
      if i == |lines| {
        drops := [Drop(CapRejectedIncoming, facet, value)];
        return;
      }
      var evicted := lines[i];
      state.profile := state.profile[facet := RemoveAt(lines, i)];
      if evicted != "" {
        drops := [Drop(LineEvicted, facet, evicted)];
        RetireFactIn(lex, state, evicted, CapEvicted, now, facet, false, true);
      }
    }
    state.profile := state.profile[facet := Lines(state.Value(), facet) + [value]];
    if ev.Some? {
      PromoteToFactRegistry(lex, state, value, Profile, Authority(ev), ev.value, id, Some(facet), now, entities);
    }
  }

  method ApplyOneFact(env: Env, state: DigestState, fact: ProposedFact, from: Sources, id: Id, now: nat) returns (drops: seq<Drop>)
    modifies state
    ensures FactResult(state.Value(), drops) == ApplyFact(env, old(state.Value()), fact, from, id, now)
  {
    var facet := env.lex.trim(fact.facet);
    var value := env.lex.stripIds(env.lex.trim(fact.value));
    if value == "" { return []; }
    if !env.pack.registered(facet) { return [Drop(FacetNotRegistered, facet, value)]; }
    if !FactSized(env.lex, value) { return [Drop(FactTooLong, facet, value)]; }
    var ev := EvidenceFor(env.pack, facet, from);
    if env.pack.documentAuthority(facet) && ev.None? { return [Drop(NoDocumentEvidence, facet, value)]; }
    if facet !in state.profile { state.profile := state.profile[facet := []]; }
    assert state.Value() == WithFacet(old(state.Value()), facet);
    var i := SameLine(env.lex, state.profile[facet], value);
    if i < |state.profile[facet]| {
      drops := RestateFact(env, state, facet, i, value, fact.entities, ev, id, now);
    } else {
      drops := AppendFact(env, state, facet, value, fact.entities, ev, id, now);
    }
  }

  /** `applyProfileFactsFromDigest`. */
  method ApplyProfileFactsFromDigest(env: Env, state: DigestState, facts: seq<ProposedFact>, from: Sources, ids: seq<Id>, now: nat) returns (drops: seq<Drop>)
    requires |facts| == |ids|
    modifies state
    ensures FactResult(state.Value(), drops) == ApplyFacts(env, old(state.Value()), facts, from, ids, now)
  {
    drops := [];
    for k := 0 to |facts|
      invariant FactResult(state.Value(), drops) == ApplyFacts(env, old(state.Value()), facts[..k], from, ids[..k], now)
    {
      PrefixStep(facts, k);
      PrefixStep(ids, k);
      var more := ApplyOneFact(env, state, facts[k], from, ids[k], now);
      drops := drops + more;
    }
    assert facts[..|facts|] == facts && ids[..|ids|] == ids;
  }

  // ---------------------------------------------------------------- routed events

  /** The body of the loop of `mergeProfileFacets` for one fact-sized event. */
  method RouteOne(env: Env, state: DigestState, facet: string, value: string, eventId: Id, previous: set<Id>, id: Id, now: nat) returns (drops: seq<Drop>)
    requires facet in state.profile
    modifies state
    ensures FactResult(state.Value(), drops) == RouteFact(env, old(state.Value()), facet, value, eventId, previous, id, now)
  {
    var lex := env.lex;
    drops := [];
    var protect := env.pack.writeProtected(facet);
    var lines := state.profile[facet];
    var i := SameLine(lex, lines, value);
    if i < |lines| {
      if protect && ProtectedLine(lex, state.registry, previous, facet, lines[i]) { return; }
      state.profile := state.profile[facet := lines[i := value]];
      return;
    }
    if |lines| >= env.pack.cap(facet) {
      var j := 0;
      if protect {
        j := UnprotectedLine(lex, state.registry, previous, facet, lines);
        if j == |lines| { return [Drop(CapRejectedIncoming, facet, value)]; }
      }
      if j < |lines| {
        if lines[j] != "" { drops := [Drop(LineEvicted, facet, lines[j])]; }
        state.profile := state.profile[facet := RemoveAt(lines, j)];
      }
    }
    state.profile := state.profile[facet := state.profile[facet] + [value]];
    if protect {
      PromoteToFactRegistry(lex, state, value, Profile, 0.7, Evidence(eventId, EventSource), id, Some(facet), now, []);
    }
  }

  /** `mergeProfileFacets`. */
  method MergeProfileFacets(env: Env, state: DigestState, events: seq<RoutedEvent>, previous: set<Id>, ids: seq<Id>, now: nat) returns (drops: seq<Drop>)
    requires |events| == |ids|
    modifies state
    ensures FactResult(state.Value(), drops) == RouteEvents(env, old(state.Value()), events, previous, ids, now)
  {
    drops := [];
    for k := 0 to |events|
      invariant FactResult(state.Value(), drops) == RouteEvents(env, old(state.Value()), events[..k], previous, ids[..k], now)
    {
      PrefixStep(events, k);
      PrefixStep(ids, k);
      var route := env.pack.route(events[k].classifiedType);
      var value := env.lex.trim(events[k].content);
      if route.Some? && value != "" {
        if !FactSized(env.lex, value) {
          drops := drops + [Drop(FactTooLong, route.value, value)];
        } else {
          if route.value !in state.profile { state.profile := state.profile[route.value := []]; }
          var more := RouteOne(env, state, route.value, value, events[k].id, previous, ids[k], now);
          drops := drops + more;
        }
      }
    }
    assert events[..|events|] == events && ids[..|ids|] == ids;
  }

  // ---------------------------------------------------------------- consolidation

  /** The relinking loop of `applyFacetConsolidation`; the ids handed out are new to the registry. */
  method RelinkSources(lex: Lexicon, state: DigestState, facet: string, items: seq<string>, result: seq<Merged>, now: nat)
    requires Ids(state.registry) !! ResultIds(result)
    modifies state`registry
    ensures state.registry == RelinkAll(lex, old(state.registry), facet, items, result, now)
  {
    ghost var r := state.registry;
    var before := state.registry;
    for k := 0 to |state.registry|
      invariant |state.registry| == |r|
      invariant forall i :: 0 <= i < k ==> state.registry[i] == Relink(lex, r, facet, items, result, now, r[i])
      invariant forall i :: k <= i < |r| ==> state.registry[i] == r[i]
    {
      var e := state.registry[k];
      RelinkedStatus(lex, r, state.registry, facet, items, result, now, k);
      if Active(e) && e.kind == Profile && e.facet == Some(facet) && !IsCallerNote(e, state.registry) {
        var replacement := Replacement(lex, before, facet, items, result, e.id);
        if replacement.Some? {
          state.Mark(k, e.(supersededBy := replacement));
        } else {
          state.Mark(k, e.(retired := Some(Retirement(now, ConsolidationDropped))));
        }
      }
    }
  }

  /** Relinking earlier entries does not change who wrote a later one. */
  lemma RelinkedStatus(lex: Lexicon, r: seq<Entry>, m: seq<Entry>, facet: string, items: seq<string>, result: seq<Merged>, now: nat, k: nat)
    requires |m| == |r| && k < |r| && Ids(r) !! ResultIds(result)
    requires forall i :: 0 <= i < k ==> m[i] == Relink(lex, r, facet, items, result, now, r[i])
    requires forall i :: k <= i < |r| ==> m[i] == r[i]
    ensures IsCallerNote(r[k], m) == IsCallerNote(r[k], r)
  {
    forall i | 0 <= i < |r| ensures Evolves(r[i], m[i])
                            ensures m[i].supersededBy.Some? && r[i].supersededBy.None? ==> m[i].supersededBy.value in ResultIds(result) {
      ReplacementIssued(lex, r, facet, items, result, r[i].id);
    }
    assert Grows(r, m, ResultIds(result));
    assert r[k] in r && r[k].id in Ids(r);
    CallerStable(r, m, ResultIds(result), r[k]);
  }

  lemma CallerLinesMore(lex: Lexicon, r: seq<Entry>, facet: string, lines: seq<string>, t: string)
    ensures CallerLines(lex, r, facet, lines + [t])
         == if IsCallerNoteText(lex, r, facet, t) then CallerLines(lex, r, facet, lines) + [t] else CallerLines(lex, r, facet, lines)
  {
    assert (lines + [t])[..|lines|] == lines;
  }

  lemma NoCallerLines(lex: Lexicon, r: seq<Entry>, facet: string)
    ensures CallerLines(lex, r, facet, []) == []
  {
  }

  /** The loop that keeps caller notes where they were and puts the consolidated lines in the first other place. */
  method InterleaveLines(lex: Lexicon, r: seq<Entry>, facet: string, lines: seq<string>, texts: seq<string>) returns (merged: seq<string>)
    ensures merged == Interleave(lex, r, facet, lines, texts)
  {
    hide IsCallerNoteText, CallerLines;
    merged := [];
    var placed := false;
    ghost var p := First(lines, t => !IsCallerNoteText(lex, r, facet, t));
    NoCallerLines(lex, r, facet);
    for k := 0 to |lines|
      invariant placed <==> k > p
      invariant !placed ==> merged == lines[..k]
      invariant placed ==> merged == lines[..p] + texts + CallerLines(lex, r, facet, lines[p..k])
    {
      if k >= p {
        CallerLinesMore(lex, r, facet, lines[p..k], lines[k]);
        assert lines[p..k] + [lines[k]] == lines[p..k + 1];
      }
      if IsCallerNoteText(lex, r, facet, lines[k]) {
        merged := merged + [lines[k]];
      } else if !placed {
        merged := merged + texts;
        placed := true;
      }
    }
    assert lines[p..|lines|] == lines[p..];
    if !placed {
      assert lines[p..] == [];
      merged := merged + texts;
    }
  }

  /** `applyFacetConsolidation`. */
  method ApplyFacetConsolidation(lex: Lexicon, state: DigestState, facet: string, items: seq<string>, result: seq<Merged>, now: nat) returns (applied: bool)
    requires Ids(state.registry) !! ResultIds(result)
    modifies state
    ensures Outcome(state.Value(), applied) == ApplyConsolidation(lex, old(state.Value()), facet, items, result, now)
  {
    if result == [] { return false; }
    for k := 0 to |result|
      invariant forall j :: 0 <= j < k ==> WellSourced(items, result[j])
    {
      if !WellSourced(items, result[k]) { return false; }
    }
    var before := state.registry;
    var newEntries := NewEntries(lex, before, facet, items, result, now);
    RelinkSources(lex, state, facet, items, result, now);
    state.registry := state.registry + newEntries;
    if !HasCallerNotes(before, facet) {
      state.profile := state.profile[facet := Texts(result)];
      return true;
    }
    var merged := InterleaveLines(lex, before, facet, Lines(state.Value(), facet), Texts(result));
    state.profile := state.profile[facet := merged];
    return true;
  }

  // ---------------------------------------------------------------- the commit

  /** `carryOverConcurrentNotes`. */
  method CarryOverConcurrentNotes(env: Env, pipeline: DigestState, latest: Ledger, keys: set<Key>, now: nat)
    modifies pipeline
    ensures pipeline.Value() == CarryOver(env, old(pipeline.Value()), latest, keys, now)
  {
    CarryEntries(env, pipeline, latest.registry, keys);
    var _ := RetireForgottenNotes(env, pipeline, keys, now);
    HoldNotesToCap(env, pipeline, now);
  }

  method CarryEntries(env: Env, pipeline: DigestState, latest: seq<Entry>, keys: set<Key>)
    modifies pipeline
    ensures pipeline.Value() == CarryAll(env, old(pipeline.Value()), latest, keys)
  {
    var own := |pipeline.registry|;
    for k := 0 to |latest|
      invariant own <= |pipeline.registry|
      invariant pipeline.Value() == CarryAll(env, old(pipeline.Value()), latest[..k], keys)
    {
      PrefixStep(latest, k);
      CarryEntry(env, pipeline, own, latest[k], keys);
    }
    assert latest[..|latest|] == latest;
  }

  method CarryEntry(env: Env, pipeline: DigestState, own: nat, entry: Entry, keys: set<Key>)
    requires own <= |pipeline.registry|
    modifies pipeline
    ensures pipeline.Value() == CarryStep(env, old(pipeline.Value()), own, entry, keys)
    ensures |pipeline.registry| >= old(|pipeline.registry|)
  {
    if entry.facet != Some(NOTES) { return; }
    var i := ById(pipeline.registry[..own], entry.id);
    if i < own {
      var mine := pipeline.registry[i];
      if !Active(entry) && Active(mine) {
        pipeline.Mark(i, TakeOver(mine, entry));
        var lines := Lines(pipeline.Value(), NOTES);
        pipeline.profile := pipeline.profile[NOTES := WithoutLine(env.lex, lines, mine.content)];
      }
      return;
    }
    if NoteForgotten(env, keys, entry.content) { return; }
    pipeline.registry := pipeline.registry + [entry];
    if Active(entry) {
      var lines := Lines(pipeline.Value(), NOTES);
      pipeline.profile := pipeline.profile[NOTES := if entry.content in lines then lines else lines + [entry.content]];
    }
  }

  method HoldNotesToCap(env: Env, state: DigestState, now: nat)
    modifies state
    ensures state.Value() == HoldToCap(env, old(state.Value()), now)
  {
    while |Lines(state.Value(), NOTES)| > env.pack.cap(NOTES)
      invariant HoldToCap(env, state.Value(), now) == HoldToCap(env, old(state.Value()), now)
      decreases |Lines(state.Value(), NOTES)|
    {
      var held := Lines(state.Value(), NOTES);
      var i := Surplus(env.lex, state.Value());
      ghost var s := state.Value();
      state.profile := state.profile[NOTES := RemoveAt(held, i)];
      RetireFactIn(env.lex, state, held[i], CapEvicted, now, NOTES, true, false);
      assert state.Value() == EvictNote(env.lex, s, i, now);
    }
  }
}
