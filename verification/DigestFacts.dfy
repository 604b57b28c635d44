/**
 * How a digest run writes profile facts: those its model extracted (`applyProfileFactsFromDigest`)
 * and those a classified event routes straight to a facet (`mergeProfileFacets`), both in
 * packages/core/src/digest/merge.ts.
 */
module DigestFacts {
  import opened Options
  import opened Seqs
  import opened FactRegistry

  datatype ProposedFact = ProposedFact(facet: string, value: string, entities: seq<string>)

  datatype DropReason =
    | FacetNotRegistered
    | FactTooLong
    | NoDocumentEvidence
    | ProtectedLowerAuthority
    | CapRejectedIncoming
    | LineEvicted

  datatype Drop = Drop(reason: DropReason, facet: string, value: string)

  datatype FactResult = FactResult(state: Ledger, drops: seq<Drop>)

  /** Where a run's facts come from: its latest document and its latest stream event. */
  datatype Sources = Sources(document: Option<Id>, stream: Option<Id>)

  function EvidenceFor(pack: Pack, facet: string, from: Sources): Option<Evidence> {
    var doc := if from.document.Some? then Some(Evidence(from.document.value, DocumentSource)) else None;
    if pack.documentAuthority(facet) || from.stream.None? then doc
    else Some(Evidence(from.stream.value, EventSource))
  }

  function Authority(ev: Option<Evidence>): real {
    if ev.Some? && ev.value.source == DocumentSource then 0.85 else 0.6
  }

  /** `findIndex` of the line of a facet that states the same fact. */
  function SameLine(lex: Lexicon, lines: seq<string>, value: string): (i: nat)
    ensures i <= |lines|
    ensures i < |lines| ==> lex.sameFact(lines[i], value)
    ensures forall j :: 0 <= j < i ==> !lex.sameFact(lines[j], value)
  {
    First(lines, t => lex.sameFact(t, value))
  }

  predicate Authoritative(lex: Lexicon, r: seq<Entry>, line: string, e: Entry) {
    Active(e) && e.kind == Profile && !IsCallerNote(e, r) && lex.sameFact(e.content, line)
  }

  /** The first active entry, other than a caller's note, that states the same fact as a line. */
  function AuthorityIndex(lex: Lexicon, r: seq<Entry>, line: string): (i: nat)
    ensures i <= |r|
    ensures i < |r| ==> Authoritative(lex, r, line, r[i])
    ensures forall j :: 0 <= j < i ==> !Authoritative(lex, r, line, r[j])
  {
    First(r, e => Authoritative(lex, r, line, e))
  }

  /** The first line of a facet no caller's note backs. */
  function DigestLine(lex: Lexicon, r: seq<Entry>, facet: string, lines: seq<string>): (i: nat)
    ensures i <= |lines|
    ensures i < |lines| ==> !IsCallerNoteText(lex, r, facet, lines[i])
    ensures forall j :: 0 <= j < i ==> IsCallerNoteText(lex, r, facet, lines[j])
  {
    First(lines, t => !IsCallerNoteText(lex, r, facet, t))
  }

  /** The facet's list of lines, created empty when missing. */
  function WithFacet(s: Ledger, facet: string): Ledger {
    if facet in s.profile then s else SetLines(s, facet, [])
  }

  /** The registry links a restated fact to its new wording, or to its stronger evidence. */
  function Linked(lex: Lexicon, s: Ledger, facet: string, line: string, value: string, news: bool, entities: seq<string>, ev: Option<Evidence>, id: Id, now: nat): Ledger {
    if ev.Some? && news then Supersede(lex, s, line, value, ev.value, id, facet, Authority(ev), entities, now) else s
  }

  /** A fact that restates line `i` of its facet. */
  function Restate(env: Env, s: Ledger, facet: string, i: nat, value: string, entities: seq<string>, ev: Option<Evidence>, id: Id, now: nat): FactResult
    requires i < |Lines(s, facet)|
  {
    var lex := env.lex;
    var line := Lines(s, facet)[i];
    var changed := lex.trim(line) != lex.trim(value);
    var authority := Authority(ev);
    if IsCallerNoteText(lex, s.registry, facet, line) then
      FactResult(s, if changed then [Drop(ProtectedLowerAuthority, facet, value)] else [])
    else
      var a := AuthorityIndex(lex, s.registry, line);
      if env.pack.writeProtected(facet) && a < |s.registry| && authority < s.registry[a].confidence then
        FactResult(s, [Drop(ProtectedLowerAuthority, facet, value)])
      else
        var raised := a < |s.registry| && authority > s.registry[a].confidence;
        var linked := Linked(lex, s, facet, line, value, changed || raised, entities, ev, id, now);
        FactResult(if changed then SetLines(linked, facet, Lines(s, facet)[i := value]) else linked, [])
  }

  /** A fact no line of its facet states yet. */
  function Append(env: Env, s: Ledger, facet: string, value: string, entities: seq<string>, ev: Option<Evidence>, id: Id, now: nat): FactResult {
    var lex := env.lex;
    var lines := Lines(s, facet);
    if |lines| < env.pack.cap(facet) then
      FactResult(PushFact(lex, s, facet, value, entities, ev, id, now), [])
    else
      var i := DigestLine(lex, s.registry, facet, lines);
      if env.pack.writeProtected(facet) || i == |lines| then
        FactResult(s, [Drop(CapRejectedIncoming, facet, value)])
      else
        var evicted := lines[i];
        var room := SetLines(s, facet, RemoveAt(lines, i));
        if evicted == "" then
          FactResult(PushFact(lex, room, facet, value, entities, ev, id, now), [])
        else
          var retired := RetireFact(lex, room, evicted, CapEvicted, now, facet, false, true);
          FactResult(PushFact(lex, retired, facet, value, entities, ev, id, now), [Drop(LineEvicted, facet, evicted)])
  }

  function PushFact(lex: Lexicon, s: Ledger, facet: string, value: string, entities: seq<string>, ev: Option<Evidence>, id: Id, now: nat): Ledger {
    var pushed := SetLines(s, facet, Lines(s, facet) + [value]);
    if ev.Some? then Promote(lex, pushed, value, Profile, Authority(ev), ev.value, id, Some(facet), now, entities) else pushed
  }

  /** One fact of `applyProfileFactsFromDigest`. */
  function ApplyFact(env: Env, s: Ledger, fact: ProposedFact, from: Sources, id: Id, now: nat): FactResult {
    var facet := env.lex.trim(fact.facet);
    var value := env.lex.stripIds(env.lex.trim(fact.value));
    if value == "" then FactResult(s, [])
    else if !env.pack.registered(facet) then FactResult(s, [Drop(FacetNotRegistered, facet, value)])
    else if !FactSized(env.lex, value) then FactResult(s, [Drop(FactTooLong, facet, value)])
    else
      var ev := EvidenceFor(env.pack, facet, from);
      if env.pack.documentAuthority(facet) && ev.None? then FactResult(s, [Drop(NoDocumentEvidence, facet, value)])
      else
        var ready := WithFacet(s, facet);
        var i := SameLine(env.lex, Lines(ready, facet), value);
        if i < |Lines(ready, facet)| then Restate(env, ready, facet, i, value, fact.entities, ev, id, now)
        else Append(env, ready, facet, value, fact.entities, ev, id, now)
  }

  /** `applyProfileFactsFromDigest` over a whole list, the k-th fact drawing the k-th id. */
  function ApplyFacts(env: Env, s: Ledger, facts: seq<ProposedFact>, from: Sources, ids: seq<Id>, now: nat): FactResult
    requires |facts| == |ids|
  {
    if facts == [] then FactResult(s, [])
    else
      var n := |facts| - 1;
      var before := ApplyFacts(env, s, facts[..n], from, ids[..n], now);
      var last := ApplyFact(env, before.state, facts[n], from, ids[n], now);
      FactResult(last.state, before.drops + last.drops)
  }

  // ---------------------------------------------------------------- routed events

  datatype RoutedEvent = RoutedEvent(id: Id, classifiedType: string, content: string)

  predicate ProtectedLine(lex: Lexicon, r: seq<Entry>, previous: set<Id>, facet: string, line: string) {
    exists e :: e in r && e.id in previous && e.supersededBy.None? && e.facet == Some(facet) && lex.sameFact(e.content, line)
  }

  function UnprotectedLine(lex: Lexicon, r: seq<Entry>, previous: set<Id>, facet: string, lines: seq<string>): (i: nat)
    ensures i <= |lines|
    ensures i < |lines| ==> !ProtectedLine(lex, r, previous, facet, lines[i])
    ensures forall j :: 0 <= j < i ==> ProtectedLine(lex, r, previous, facet, lines[j])
  {
    First(lines, t => !ProtectedLine(lex, r, previous, facet, t))
  }

  /** One event of `mergeProfileFacets`; `previous` are the registry ids the run started from. */
  function RouteEvent(env: Env, s: Ledger, evt: RoutedEvent, previous: set<Id>, id: Id, now: nat): FactResult {
    var route := env.pack.route(evt.classifiedType);
    var value := env.lex.trim(evt.content);
    if route.None? || value == "" then FactResult(s, [])
    else if !FactSized(env.lex, value) then FactResult(s, [Drop(FactTooLong, route.value, value)])
    else RouteFact(env, WithFacet(s, route.value), route.value, value, evt.id, previous, id, now)
  }

  function RouteFact(env: Env, s: Ledger, facet: string, value: string, eventId: Id, previous: set<Id>, id: Id, now: nat): FactResult {
    var lex := env.lex;
    var lines := Lines(s, facet);
    var protect := env.pack.writeProtected(facet);
    var i := SameLine(lex, lines, value);
    if i < |lines| then
      if protect && ProtectedLine(lex, s.registry, previous, facet, lines[i]) then FactResult(s, [])
      else FactResult(SetLines(s, facet, lines[i := value]), [])
    else if |lines| < env.pack.cap(facet) then
      FactResult(PushRouted(lex, s, facet, protect, value, eventId, id, now), [])
    else
      var j := if protect then UnprotectedLine(lex, s.registry, previous, facet, lines) else 0;
      if j == |lines| then
        if protect then FactResult(s, [Drop(CapRejectedIncoming, facet, value)])
        else FactResult(PushRouted(lex, s, facet, protect, value, eventId, id, now), [])
      else
        FactResult(PushRouted(lex, SetLines(s, facet, RemoveAt(lines, j)), facet, protect, value, eventId, id, now),
                   if lines[j] == "" then [] else [Drop(LineEvicted, facet, lines[j])])
  }

  function PushRouted(lex: Lexicon, s: Ledger, facet: string, protect: bool, value: string, eventId: Id, id: Id, now: nat): Ledger {
    var pushed := SetLines(s, facet, Lines(s, facet) + [value]);
    if protect then Promote(lex, pushed, value, Profile, 0.7, Evidence(eventId, EventSource), id, Some(facet), now, []) else pushed
  }

  /** `mergeProfileFacets`: every event of the stream in turn. */
  function RouteEvents(env: Env, s: Ledger, events: seq<RoutedEvent>, previous: set<Id>, ids: seq<Id>, now: nat): FactResult
    requires |events| == |ids|
  {
    if events == [] then FactResult(s, [])
    else
      var n := |events| - 1;
      var before := RouteEvents(env, s, events[..n], previous, ids[..n], now);
      var last := RouteEvent(env, before.state, events[n], previous, ids[n], now);
      FactResult(last.state, before.drops + last.drops)
  }
}
