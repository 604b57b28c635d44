/**
 * The registry and note writers as they run: methods that change a state object in place, each
 * proved to compute the function of module FactRegistry that specifies it.
 */
module LedgerWrites {
  import opened Options
  import opened Seqs
  import opened FactRegistry
  import opened MemoryFacts

  class DigestState {
    var registry: seq<Entry>
    var profile: map<string, seq<string>>

    function Value(): Ledger
      reads this
    {
      Ledger(registry, profile)
    }

    constructor (s: Ledger)
      ensures Value() == s
    {
      registry := s.registry;
      profile := s.profile;
    }

    /** Mark an entry, as the sources do through a reference to it. */
    method Mark(i: nat, e: Entry)
      requires i < |registry|
      modifies this`registry
      ensures registry == old(registry)[i := e]
    {
      registry := registry[i := e];
    }
  }

  /** `isCallerNoteEntry`: counting stops at the second entry that points here. */
  method IsCallerNoteEntry(e: Entry, registry: seq<Entry>) returns (caller: bool)
    ensures caller == IsCallerNote(e, registry)
  {
    if e.origin.Some? { return e.origin.value == NoteOrigin; }
    if !CallerShape(e) { return false; }
    var sources := 0;
    for k := 0 to |registry|
      invariant sources == Pointers(registry[..k], e.id) <= 1
    {
      PrefixStep(registry, k);
      if registry[k].supersededBy == Some(e.id) {
        sources := sources + 1;
        if sources > 1 {
          PointersOfPrefix(registry, k + 1, e.id);
          return false;
        }
      }
    }
    assert registry[..|registry|] == registry;
    return true;
  }

  lemma {:induction false} PointersOfPrefix(r: seq<Entry>, k: nat, id: Id)
    requires k <= |r|
    ensures Pointers(r[..k], id) <= Pointers(r, id)
    decreases |r|
  {
    if k < |r| {
      PointersOfPrefix(r[..|r| - 1], k, id);
      assert r[..|r| - 1][..k] == r[..k];
    } else {
      assert r[..k] == r;
    }
  }

  method RetireFactIn(lex: Lexicon, state: DigestState, content: string, reason: Reason, now: nat, facet: string, exact: bool, spareCallers: bool)
    modifies state
    ensures state.Value() == RetireFact(lex, old(state.Value()), content, reason, now, facet, exact, spareCallers)
  {
    var i := RetireTarget(lex, state.registry, content, facet, exact, spareCallers);
    if i == |state.registry| { return; }
    state.Mark(i, state.registry[i].(retired := Some(Retirement(now, reason))));
  }

  method PromoteToFactRegistry(lex: Lexicon, state: DigestState, content: string, kind: Kind, confidence: real, ev: Evidence, id: Id, facet: Option<string>, now: nat, entities: seq<string>)
    modifies state
    ensures state.Value() == Promote(lex, old(state.Value()), content, kind, confidence, ev, id, facet, now, entities)
  {
    if InRegistry(lex, state.registry, content) { return; }
    if !FactSized(lex, content) { return; }
    state.registry := state.registry + [NewEntry(id, content, kind, confidence, now, ev, facet, entities)];
  }

  method SupersedeFact(lex: Lexicon, state: DigestState, content: string, newContent: string, ev: Evidence, id: Id, facet: string, confidence: real, entities: seq<string>, now: nat)
    modifies state
    ensures state.Value() == Supersede(lex, old(state.Value()), content, newContent, ev, id, facet, confidence, entities, now)
  {
    var i := SupersedeTarget(lex, state.registry, content);
    if i == |state.registry| { return; }
    state.Mark(i, state.registry[i].(supersededBy := Some(id)));
    state.registry := state.registry + [NewEntry(id, newContent, Profile, confidence, now, ev, Some(facet), entities)];
  }

  /** The loop of `retireForgottenNotes` over the entries. */
  method StampForgottenEntries(env: Env, state: DigestState, keys: set<Key>, now: nat) returns (count: nat)
    modifies state`registry
    ensures state.registry == StampAll(env, keys, now, old(state.registry))
    ensures count == Count(old(state.registry), e => ForgottenHere(env, keys, e))
  {
    count := 0;
    ghost var before := state.registry;
    for k := 0 to |state.registry|
      invariant |state.registry| == |before|
      invariant forall i :: 0 <= i < k ==> state.registry[i] == StampForgotten(env, keys, now, before[i])
      invariant forall i :: k <= i < |before| ==> state.registry[i] == before[i]
      invariant count == Count(before[..k], e => ForgottenHere(env, keys, e))
    {
      PrefixStep(before, k);
      var e := state.registry[k];
      if ForgottenHere(env, keys, e) {
        state.Mark(k, e.(retired := Some(Retirement(now, Forgotten))));
        count := count + 1;
      }
    }
    assert before[..|before|] == before;
  }

  /** `retireForgottenNotes`. */
  method RetireForgottenNotes(env: Env, state: DigestState, keys: set<Key>, now: nat) returns (changed: nat)
    modifies state
    ensures (state.Value(), changed) == RetireForgotten(env, old(state.Value()), keys, now)
  {
    hide NoteForgotten, StampForgotten, ForgottenHere, Filter;
    if keys == {} { return 0; }
    if env.pack.group(NOTES).None? { return 0; }
    changed := 0;
    if NOTES in state.profile {
      var notes := state.profile[NOTES];
      var kept := KeptNotes(env, keys, notes);
      changed := |notes| - |kept|;
      state.profile := state.profile[NOTES := kept];
    }
    var count := StampForgottenEntries(env, state, keys, now);
    changed := changed + count;
  }

  /** `registerNote`. */
  method RegisterNote(state: DigestState, value: string, stamp: Stamp, prior: nat)
    requires prior <= |state.registry|
    modifies state
    ensures state.Value() == Register(old(state.Value()), value, stamp, prior)
  {
    var found := prior < |state.registry|;
    state.registry := state.registry + [NoteEntry(value, stamp)];
    if found {
      state.Mark(prior, state.registry[prior].(supersededBy := Some(stamp.id)));
    }
  }

  /** `addNoteFact`. */
  method AddNoteFact(env: Env, state: DigestState, text: string, stamp: Stamp, keys: set<Key>) returns (changed: bool, superseded: Option<string>)
    modifies state
    ensures NoteResult(state.Value(), changed, superseded) == AddNote(env, old(state.Value()), text, stamp, keys)
  {
    hide RetireForgotten, Register, HasLine, NoteForgotten, RetireTarget, ForgottenPrior, ActiveNoteIndex, RevisedLine;
    var lex := env.lex;
    var value := lex.trim(text);
    if value == "" { return false, None; }
    var count := RetireForgottenNotes(env, state, keys, stamp.now);
    var healed := count > 0;
    ghost var s := state.Value();
    if NoteForgotten(env, keys, value) { return healed, None; }
    var notes := Lines(state.Value(), NOTES);
    if HasLine(lex, notes, value) { return healed, None; }

    var i := RevisedLine(lex, notes, value);
    if i < |notes| {
      state.profile := state.profile[NOTES := notes[i := value]];
      var prior := ActiveNoteIndex(lex, state.registry, notes[i]);
      RegisterNote(state, value, stamp, prior);
      assert state.Value() == Revise(lex, s, i, value, stamp).state;
      return true, Some(notes[i]);
    }

    var prior := ForgottenPrior(lex, state.registry, value);
    var found := prior < |state.registry|;
    var priorContent := if found then state.registry[prior].content else "";
    if |notes| >= env.pack.cap(NOTES) && notes != [] {
      var evicted := notes[0];
      state.profile := state.profile[NOTES := RemoveAt(notes, 0)];
      if evicted != "" {
        RetireFactIn(lex, state, evicted, CapEvicted, stamp.now, NOTES, true, false);
      }
    }
    assert notes != [] ==> RemoveAt(notes, 0) == notes[1..];
    assert state.Value() == MakeRoom(env, s, stamp.now);
    state.profile := state.profile[NOTES := Lines(state.Value(), NOTES) + [value]];
    assert state.Value() == Held(env, s, value, stamp.now);
    assert |state.registry| == |s.registry|;
    if found {
      RegisterNote(state, value, stamp, prior);
      return true, Some(priorContent);
    }
    var registered := ActiveNoteIndex(lex, state.registry, value);
    if registered == |state.registry| {
      RegisterNote(state, value, stamp, |state.registry|);
    }
    return true, None;
  }

  /** The loop of `pruneForgottenFacts` over the facets. */
  method PruneFacets(env: Env, state: DigestState, keys: set<Key>)
    modifies state`profile
    ensures state.profile == PruneProfile(env, keys, old(state.profile))
  {
    ghost var p := state.profile;
    var facets := state.profile.Keys;
    while facets != {}
      invariant facets <= p.Keys && state.profile.Keys == p.Keys
      invariant forall f :: f in facets ==> state.profile[f] == p[f]
      invariant forall f :: f in p.Keys - facets ==> state.profile[f] == PruneLines(env.lex, env.defaultPack.group(f), keys, p[f])
      decreases |facets|
    {
      var facet :| facet in facets;
      var group := env.defaultPack.group(facet);
      if group.Some? {
        state.profile := state.profile[facet := PruneLines(env.lex, group, keys, state.profile[facet])];
      } else {
        FilterAll(p[facet], t => !KeyedIn(env.lex, group, keys, t));
      }
      facets := facets - {facet};
    }
  }

  /** The loop of `pruneForgottenFacts` over the entries. */
  method PruneRegistry(lex: Lexicon, pack: Pack, state: DigestState, keys: set<Key>, now: nat)
    modifies state`registry
    ensures state.registry == PruneEntries(lex, pack, keys, now, old(state.registry))
  {
    ghost var before := state.registry;
    for k := 0 to |state.registry|
      invariant |state.registry| == |before|
      invariant forall i :: 0 <= i < k ==> state.registry[i] == PruneEntry(lex, pack, keys, now, before[i])
      invariant forall i :: k <= i < |before| ==> state.registry[i] == before[i]
    {
      var e := state.registry[k];
      if Prunable(lex, pack, keys, e) {
        state.Mark(k, e.(retired := Some(Retirement(now, Forgotten))));
      }
    }
  }

  /** `pruneForgottenFacts`. */
  method PruneForgottenFacts(env: Env, pack: Pack, state: DigestState, keys: set<Key>, now: nat)
    modifies state
    ensures state.Value() == PruneForgotten(env, pack, old(state.Value()), keys, now)
  {
    if keys == {} { return; }
    PruneFacets(env, state, keys);
    PruneRegistry(env.lex, pack, state, keys, now);
  }
}
