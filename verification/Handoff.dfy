/**
 * The digest-commit merge: notes written, revised, evicted or forgotten while a digest ran are
 * carried into the state it is about to commit (packages/core/src/handoff.ts).
 */
module Handoff {
  import opened Options
  import opened Seqs
  import opened FactRegistry

  function SameNoteLine(lex: Lexicon, lines: seq<string>, text: string): (i: nat)
    ensures i <= |lines|
    ensures i < |lines| ==> lex.canon(lines[i]) == lex.canon(text)
    ensures forall j :: 0 <= j < i ==> lex.canon(lines[j]) != lex.canon(text)
  {
    First(lines, t => lex.canon(t) == lex.canon(text))
  }

  function WithoutLine(lex: Lexicon, lines: seq<string>, text: string): seq<string> {
    var i := SameNoteLine(lex, lines, text);
    if i < |lines| then RemoveAt(lines, i) else lines
  }

  /** `mine` takes over the concurrent retirement or revision recorded on `theirs`. */
  function TakeOver(mine: Entry, theirs: Entry): Entry {
    mine.(supersededBy := if theirs.supersededBy.Some? then theirs.supersededBy else mine.supersededBy,
          retired := if theirs.retired.Some? then theirs.retired else mine.retired)
  }

  /** An entry of the latest snapshot the pipeline already holds, at index `i`. */
  function Reconcile(lex: Lexicon, s: Ledger, i: nat, theirs: Entry): Ledger
    requires i < |s.registry|
  {
    var mine := s.registry[i];
    if Active(theirs) || !Active(mine) then s
    else
      SetLines(s.(registry := s.registry[i := TakeOver(mine, theirs)]), NOTES, WithoutLine(lex, Lines(s, NOTES), mine.content))
  }

  /** An entry of the latest snapshot the pipeline never saw. */
  function Adopt(env: Env, s: Ledger, theirs: Entry, keys: set<Key>): Ledger {
    if NoteForgotten(env, keys, theirs.content) then s
    else
      var pushed := s.(registry := s.registry + [theirs]);
      if !Active(theirs) then pushed
      else
        var lines := Lines(s, NOTES);
        SetLines(pushed, NOTES, if theirs.content in lines then lines else lines + [theirs.content])
  }

  /** One entry of the latest snapshot; `own` is how many entries the pipeline brought along. */
  function CarryStep(env: Env, s: Ledger, own: nat, theirs: Entry, keys: set<Key>): Ledger
    requires own <= |s.registry|
  {
    if theirs.facet != Some(NOTES) then s
    else
      var i := ById(s.registry[..own], theirs.id);
      if i < own then Reconcile(env.lex, s, i, theirs) else Adopt(env, s, theirs, keys)
  }

  /** The whole walk over the latest registry. */
  function CarryAll(env: Env, p: Ledger, latest: seq<Entry>, keys: set<Key>): (s: Ledger)
    ensures |p.registry| <= |s.registry|
  {
    if latest == [] then p
    else
      var n := |latest| - 1;
      CarryStep(env, CarryAll(env, p, latest[..n], keys), |p.registry|, latest[n], keys)
  }

  /** The line the cap pushes out: the oldest no caller's note backs, else the oldest. */
  function Surplus(lex: Lexicon, s: Ledger): (i: nat)
    requires Lines(s, NOTES) != []
    ensures i < |Lines(s, NOTES)|
  {
    var i := First(Lines(s, NOTES), t => !IsCallerNoteText(lex, s.registry, NOTES, t));
    if i == |Lines(s, NOTES)| then 0 else i
  }

  function HoldToCap(env: Env, s: Ledger, now: nat): (s': Ledger)
    ensures |Lines(s', NOTES)| <= |Lines(s, NOTES)|
    ensures |Lines(s', NOTES)| <= env.pack.cap(NOTES)
    decreases |Lines(s, NOTES)|
  {
    if |Lines(s, NOTES)| <= env.pack.cap(NOTES) then s
    else HoldToCap(env, EvictNote(env.lex, s, Surplus(env.lex, s), now), now)
  }

  /** `carryOverConcurrentNotes`: the state a digest commits. */
  function CarryOver(env: Env, p: Ledger, latest: Ledger, keys: set<Key>, now: nat): Ledger {
    HoldToCap(env, RetireForgotten(env, CarryAll(env, p, latest.registry, keys), keys, now).0, now)
  }
}
