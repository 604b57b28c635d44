/**
 * Rewriting one facet from a model's proposal, all or nothing
 * (packages/core/src/facet-consolidation.ts).
 */
module FacetConsolidation {
  import opened Options
  import opened Seqs
  import opened FactRegistry

  /** One proposed line, the source indices it claims, and the id its entry would get. */
  datatype Merged = Merged(text: string, mergedFrom: seq<int>, id: Id)

  predicate WellSourced(items: seq<string>, out: Merged) {
    exists k :: 0 <= k < |out.mergedFrom| && 0 <= out.mergedFrom[k] < |items|
  }

  predicate Acceptable(items: seq<string>, result: seq<Merged>) {
    result != [] && forall k :: 0 <= k < |result| ==> WellSourced(items, result[k])
  }

  predicate StatesSource(lex: Lexicon, r: seq<Entry>, facet: string, text: string, e: Entry) {
    e.supersededBy.None? && e.kind == Profile && e.facet == Some(facet) && !IsCallerNote(e, r)
    && (lex.trim(e.content) == lex.trim(text) || lex.sameFact(e.content, text))
  }

  /** `findEntry`. */
  function FindSource(lex: Lexicon, r: seq<Entry>, facet: string, text: string): (i: nat)
    ensures i <= |r|
    ensures i < |r| ==> StatesSource(lex, r, facet, text, r[i])
    ensures forall j :: 0 <= j < i ==> !StatesSource(lex, r, facet, text, r[j])
  {
    First(r, e => StatesSource(lex, r, facet, text, e))
  }

  /** The registry entries behind an output's in-range sources, in order. */
  function MatchedSources(lex: Lexicon, r: seq<Entry>, facet: string, items: seq<string>, from: seq<int>): (found: seq<Entry>)
    ensures forall e :: e in found ==> e in r && e.supersededBy.None? && e.kind == Profile && e.facet == Some(facet) && !IsCallerNote(e, r)
  {
    if from == [] then []
    else
      var n := |from| - 1;
      var before := MatchedSources(lex, r, facet, items, from[..n]);
      if 0 <= from[n] < |items| then
        var i := FindSource(lex, r, facet, items[from[n]]);
        if i < |r| then before + [r[i]] else before
      else before
  }

  /** `reduce` to the entry with the earliest date, the first of equals. */
  function Earliest(es: seq<Entry>): (e: Entry)
    requires es != []
    ensures e in es
    ensures forall x :: x in es ==> e.addedAt <= x.addedAt
  {
    var n := |es| - 1;
    if n == 0 then es[0]
    else
      assert es == es[..n] + [es[n]];
      assert forall x :: x in es <==> x in es[..n] || x == es[n];
      var a := Earliest(es[..n]);
      if a.addedAt <= es[n].addedAt then a else es[n]
  }

  function HighestConfidence(es: seq<Entry>): (c: real)
    requires es != []
    ensures exists x :: x in es && x.confidence == c
    ensures forall x :: x in es ==> x.confidence <= c
  {
    var n := |es| - 1;
    assert es == es[..n] + [es[n]];
    if n == 0 then es[0].confidence
    else
      var c := HighestConfidence(es[..n]);
      if c <= es[n].confidence then es[n].confidence else c
  }

  function ConsolidatedEntry(facet: string, out: Merged, sources: seq<Entry>, now: nat): Entry {
    if sources == [] then NewEntry(out.id, out.text, Profile, 0.7, now, Evidence("consolidated", EventSource), Some(facet), [])
    else
      var e := Earliest(sources);
      NewEntry(out.id, out.text, Profile, HighestConfidence(sources), e.addedAt, Evidence(e.evidenceId, e.evidenceType), Some(facet), [])
  }

  function NewEntries(lex: Lexicon, r: seq<Entry>, facet: string, items: seq<string>, result: seq<Merged>, now: nat): (es: seq<Entry>)
    ensures |es| == |result|
    ensures forall k :: 0 <= k < |result| ==>
      es[k] == ConsolidatedEntry(facet, result[k], MatchedSources(lex, r, facet, items, result[k].mergedFrom), now)
  {
    seq(|result|, k requires 0 <= k < |result| =>
      ConsolidatedEntry(facet, result[k], MatchedSources(lex, r, facet, items, result[k].mergedFrom), now))
  }

  predicate Claims(lex: Lexicon, r: seq<Entry>, facet: string, items: seq<string>, out: Merged, id: Id) {
    exists e :: e in MatchedSources(lex, r, facet, items, out.mergedFrom) && e.id == id
  }

  /** The replacement of an entry: the id of the last output that claimed it. */
  function Replacement(lex: Lexicon, r: seq<Entry>, facet: string, items: seq<string>, result: seq<Merged>, id: Id): Option<Id> {
    if result == [] then None
    else
      var n := |result| - 1;
      if Claims(lex, r, facet, items, result[n], id) then Some(result[n].id)
      else Replacement(lex, r, facet, items, result[..n], id)
  }

  predicate Consolidatable(r: seq<Entry>, facet: string, e: Entry) {
    Active(e) && e.kind == Profile && e.facet == Some(facet) && !IsCallerNote(e, r)
  }

  function Relink(lex: Lexicon, r: seq<Entry>, facet: string, items: seq<string>, result: seq<Merged>, now: nat, e: Entry): Entry {
    if !Consolidatable(r, facet, e) then e
    else
      var to := Replacement(lex, r, facet, items, result, e.id);
      if to.Some? then e.(supersededBy := to) else e.(retired := Some(Retirement(now, ConsolidationDropped)))
  }

  function RelinkAll(lex: Lexicon, r: seq<Entry>, facet: string, items: seq<string>, result: seq<Merged>, now: nat): (r': seq<Entry>)
    ensures |r'| == |r|
    ensures forall i :: 0 <= i < |r| ==> r'[i] == Relink(lex, r, facet, items, result, now, r[i])
  {
    seq(|r|, i requires 0 <= i < |r| => Relink(lex, r, facet, items, result, now, r[i]))
  }

  function Texts(result: seq<Merged>): (ts: seq<string>)
    ensures |ts| == |result|
    ensures forall k :: 0 <= k < |result| ==> ts[k] == result[k].text
  {
    seq(|result|, k requires 0 <= k < |result| => result[k].text)
  }

  /** Caller notes stay where they are; the consolidated lines take the place of the first other line. */
  function Interleave(lex: Lexicon, r: seq<Entry>, facet: string, lines: seq<string>, texts: seq<string>): seq<string> {
    var i := First(lines, t => !IsCallerNoteText(lex, r, facet, t));
    lines[..i] + texts + CallerLines(lex, r, facet, lines[i..])
  }

  predicate HasCallerNotes(r: seq<Entry>, facet: string) {
    exists e :: e in r && Active(e) && e.facet == Some(facet) && IsCallerNote(e, r)
  }

  datatype Outcome = Outcome(state: Ledger, applied: bool)

  /** `applyFacetConsolidation`. */
  function ApplyConsolidation(lex: Lexicon, s: Ledger, facet: string, items: seq<string>, result: seq<Merged>, now: nat): Outcome {
    if !Acceptable(items, result) then Outcome(s, false)
    else
      var r := s.registry;
      var lines := if HasCallerNotes(r, facet) then Interleave(lex, r, facet, Lines(s, facet), Texts(result)) else Texts(result);
      Outcome(Ledger(RelinkAll(lex, r, facet, items, result, now) + NewEntries(lex, r, facet, items, result, now),
                     s.profile[facet := lines]), true)
  }
}
